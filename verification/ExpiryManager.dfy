/** Key deadlines: a map from key to deadline, mirrored in a dense array that a rotating cursor
    samples. Swap-remove keeps the array dense; a position index makes removal constant-time. */
module Expiry {
  import opened Options
  import opened Sequences

  /** The state of an `ExpiryManager`, position index aside: that is determined by `order`. */
  datatype Table = Table(deadlines: map<string, int>, order: seq<string>, cursor: nat)
  {
    ghost predicate Valid() {
      NoDup(order) && forall k :: k in order <==> k in deadlines
    }

    predicate IsExpired(k: string, now: int) {
      k in deadlines && now >= deadlines[k]
    }

    function Set(k: string, at: int): Table {
      Table(deadlines[k := at], if k in deadlines then order else order + [k], cursor)
    }

    function Clear(k: string): Table {
      if k in order then Table(deadlines - {k}, SwapRemove(order, IndexOf(order, k)), cursor) else this
    }

    /** The tracked keys whose deadline has passed. */
    function Due(now: int): set<string> {
      set k | k in deadlines && now >= deadlines[k]
    }
  }

  const EMPTY: Table := Table(map[], [], 0)

  function IndexOf(s: seq<string>, k: string): (i: nat)
    requires k in s
    ensures i < |s| && s[i] == k
    ensures k !in s[..i]
  {
    if s[0] == k then 0 else 1 + IndexOf(s[1..], k)
  }

  /** Overwrite position `i` by the last element and drop the last position. */
  function SwapRemove(s: seq<string>, i: nat): seq<string>
    requires i < |s|
  {
    s[i := s[|s| - 1]][..|s| - 1]
  }

  lemma {:induction false} SwapRemoveElems(s: seq<string>, i: nat)
    requires NoDup(s) && i < |s|
    ensures NoDup(SwapRemove(s, i))
    ensures forall x :: x in SwapRemove(s, i) <==> x in s && x != s[i]
  {
    var r := SwapRemove(s, i);
    forall x | x in s && x != s[i] ensures x in r {
      var j :| 0 <= j < |s| && s[j] == x;
      assert r[if j == |s| - 1 then i else j] == x;
    }
  }

  /** Clearing removes exactly one key, whatever the swap did to the order. */
  lemma {:induction false} ClearValid(t: Table, k: string)
    requires t.Valid()
    ensures t.Clear(k).Valid()
    ensures t.Clear(k).deadlines == t.deadlines - {k}
    ensures |t.Clear(k).order| == |t.order| - if k in t.deadlines then 1 else 0
  {
    if k in t.order {
      SwapRemoveElems(t.order, IndexOf(t.order, k));
    }
  }

  /** A deadline that is set and cleared again leaves the table as it was, order and cursor included; one
      that is changed only changes. */
  lemma {:induction false} SetThenClear(t: Table, k: string, at: int)
    requires t.Valid()
    ensures k !in t.deadlines ==> t.Set(k, at).Clear(k) == t
    ensures k in t.deadlines ==> t.Set(k, at) == t.(deadlines := t.deadlines[k := at])
  {
    if k !in t.deadlines {
      assert k !in t.order;
      assert IndexOf(t.order + [k], k) == |t.order| by { LastIndex(t.order, k); }
      assert (t.order + [k])[..|t.order|] == t.order;
      assert t.deadlines[k := at] - {k} == t.deadlines;
    }
  }

  lemma {:induction false} LastIndex(s: seq<string>, k: string)
    requires k !in s
    ensures k in s + [k] && IndexOf(s + [k], k) == |s|
  {
    if s != [] {
      LastIndex(s[1..], k);
      TailOfAppend(s, [k]);
    }
  }

  // ----- The rotating cursor -----

  function Next(n: nat, c: nat): nat
    requires c < n
  {
    if c + 1 == n then 0 else c + 1
  }

  /** The positions that `steps` cursor steps from `c` examine. */
  function Visit(n: nat, c: nat, steps: nat): (r: seq<nat>)
    requires c < n
    ensures |r| == steps
    ensures forall i :: 0 <= i < steps ==> r[i] < n
    decreases steps
  {
    if steps == 0 then [] else [c] + Visit(n, Next(n, c), steps - 1)
  }

  /** Where the cursor rests after `steps` steps from `c`. */
  function After(n: nat, c: nat, steps: nat): (r: nat)
    requires c < n
    ensures r < n
    decreases steps
  {
    if steps == 0 then c else After(n, Next(n, c), steps - 1)
  }

  /** The first examined position: a cursor left past the end by removals wraps to 0. */
  function Start(t: Table): nat {
    if t.cursor >= |t.order| then 0 else t.cursor
  }

  function Steps(t: Table, limit: int): nat
    requires limit > 0
  {
    if limit < |t.order| then limit else |t.order|
  }

  /** The due keys at the given positions, in that order. */
  function DueAt(t: Table, now: int, positions: seq<nat>): seq<string>
    requires forall i :: 0 <= i < |positions| ==> positions[i] < |t.order|
  {
    if positions == [] then []
    else
      (if t.IsExpired(t.order[positions[0]], now) then [t.order[positions[0]]] else [])
      + DueAt(t, now, positions[1..])
  }

  /** One sampling round: the due keys found, and the table with its cursor advanced. */
  function Collect(t: Table, now: int, limit: int): (seq<string>, Table) {
    if |t.order| == 0 || limit <= 0 then ([], t)
    else
      (DueAt(t, now, Visit(|t.order|, Start(t), Steps(t, limit))),
       t.(cursor := After(|t.order|, Start(t), Steps(t, limit))))
  }

  /** Reducing a cursor that is at most `n` wraps exactly the end position. */
  lemma {:induction false} ModWraps(n: nat, c: nat)
    requires 0 < n && c <= n
    ensures c % n == if c >= n then 0 else c
  {
  }

  function Wrap(n: nat, x: nat): nat
    requires x < 2 * n
  {
    if x < n then x else x - n
  }

  lemma {:induction false} VisitAt(n: nat, c: nat, steps: nat, i: nat)
    requires c < n && i < steps && i < n
    ensures Visit(n, c, steps)[i] == Wrap(n, c + i)
    decreases steps
  {
    if i > 0 {
      VisitAt(n, Next(n, c), steps - 1, i - 1);
    }
  }

  lemma {:induction false} VisitSplit(n: nat, c: nat, a: nat, b: nat)
    requires c < n
    ensures Visit(n, c, a + b) == Visit(n, c, a) + Visit(n, After(n, c, a), b)
    ensures After(n, c, a + b) == After(n, After(n, c, a), b)
    decreases a
  {
    if a > 0 {
      VisitSplit(n, Next(n, c), a - 1, b);
    }
  }

  /** No position is examined twice in a round of at most `n` steps. */
  lemma {:induction false} VisitNoDup(n: nat, c: nat, steps: nat)
    requires c < n && steps <= n
    ensures NoDup(Visit(n, c, steps))
  {
    var v := Visit(n, c, steps);
    forall i, j | 0 <= i < j < |v| ensures v[i] != v[j] {
      VisitAt(n, c, steps, i);
      VisitAt(n, c, steps, j);
    }
  }

  /** `n` or more steps examine every position. */
  lemma {:induction false} VisitCovers(n: nat, c: nat, steps: nat, p: nat)
    requires c < n <= steps && p < n
    ensures p in Visit(n, c, steps)
  {
    var i := if c <= p then p - c else p + n - c;
    VisitAt(n, c, steps, i);
    assert Visit(n, c, steps)[i] == p;
  }

  lemma {:induction false} DueAtAppend(t: Table, now: int, a: seq<nat>, b: seq<nat>)
    requires forall i :: 0 <= i < |a| ==> a[i] < |t.order|
    requires forall i :: 0 <= i < |b| ==> b[i] < |t.order|
    ensures DueAt(t, now, a + b) == DueAt(t, now, a) + DueAt(t, now, b)
  {
    if a == [] {
      assert a + b == b;
    } else {
      DueAtAppend(t, now, a[1..], b);
      TailOfAppend(a, b);
    }
  }

  /** One more cursor step examines the key under the cursor. */
  lemma {:induction false} DueAtStep(t: Table, now: int, c: nat, i: nat)
    requires c < |t.order|
    ensures var n := |t.order|; var k := t.order[After(n, c, i)];
            && DueAt(t, now, Visit(n, c, i + 1))
               == DueAt(t, now, Visit(n, c, i)) + (if t.IsExpired(k, now) then [k] else [])
            && After(n, c, i + 1) == Next(n, After(n, c, i))
  {
    var n := |t.order|;
    VisitSplit(n, c, i, 1);
    var one := Visit(n, After(n, c, i), 1);
    assert one == [After(n, c, i)];
    DueAtAppend(t, now, Visit(n, c, i), one);
    assert DueAt(t, now, one[1..]) == [];
  }

  lemma {:induction false} DueAtElems(t: Table, now: int, positions: seq<nat>, k: string)
    requires forall i :: 0 <= i < |positions| ==> positions[i] < |t.order|
    ensures k in DueAt(t, now, positions) <==>
            t.IsExpired(k, now) && exists i :: 0 <= i < |positions| && t.order[positions[i]] == k
  {
    if positions != [] {
      DueAtElems(t, now, positions[1..], k);
      if exists i :: 0 <= i < |positions| && t.order[positions[i]] == k {
        var i :| 0 <= i < |positions| && t.order[positions[i]] == k;
        if i > 0 { assert t.order[positions[1..][i - 1]] == k; }
      }
      if exists i :: 0 <= i < |positions[1..]| && t.order[positions[1..][i]] == k {
        var i :| 0 <= i < |positions[1..]| && t.order[positions[1..][i]] == k;
        assert t.order[positions[i + 1]] == k;
      }
    }
  }

  lemma {:induction false} DueAtNoDup(t: Table, now: int, positions: seq<nat>)
    requires t.Valid() && NoDup(positions)
    requires forall i :: 0 <= i < |positions| ==> positions[i] < |t.order|
    ensures NoDup(DueAt(t, now, positions))
  {
    if positions != [] {
      NoDupTail(positions);
      DueAtNoDup(t, now, positions[1..]);
      DueAtElems(t, now, positions[1..], t.order[positions[0]]);
    }
  }

  /** A round examines min(limit, n) different keys; what it returns is due, tracked, and listed
      once; only the cursor moves. */
  lemma {:induction false} CollectSound(t: Table, now: int, limit: int)
    requires t.Valid()
    ensures NoDup(Collect(t, now, limit).0)
    ensures forall k :: k in Collect(t, now, limit).0 ==> k in t.Due(now)
    ensures Collect(t, now, limit).1.Valid()
    ensures Collect(t, now, limit).1 == t.(cursor := Collect(t, now, limit).1.cursor)
    ensures limit > 0 && |t.order| > 0 ==>
              NoDup(Visit(|t.order|, Start(t), Steps(t, limit)))
              && Collect(t, now, limit).1.cursor < |t.order|
  {
    if |t.order| > 0 && limit > 0 {
      var v := Visit(|t.order|, Start(t), Steps(t, limit));
      VisitNoDup(|t.order|, Start(t), Steps(t, limit));
      DueAtNoDup(t, now, v);
      forall k | k in Collect(t, now, limit).0 ensures k in t.Due(now) {
        DueAtElems(t, now, v, k);
      }
    }
  }

  /** The i-th key from a position on and around. */
  function KeyFrom(order: seq<string>, first: nat, i: nat): string
    requires first < |order| && i < |order|
  {
    order[if first + i < |order| then first + i else first + i - |order|]
  }

  /** Which keys a round looks at: as many as asked for, or all if there are fewer, from the cursor on and
      around; it returns those of them that are due, and the cursor stops behind the last one. */
  lemma {:induction false} CollectExactly(t: Table, now: int, limit: int, k: string)
    requires t.Valid()
    ensures limit <= 0 || |t.order| == 0 ==> Collect(t, now, limit) == ([], t)
    ensures limit > 0 && |t.order| > 0 ==>
              var n := |t.order|;
              var first, m := if t.cursor >= n then 0 else t.cursor, if limit < n then limit else n;
              var (due, u) := Collect(t, now, limit);
              && |due| <= m && u == t.(cursor := if first + m < n then first + m else first + m - n)
              && (k in due <==>
                    k in t.deadlines && now >= t.deadlines[k]
                    && exists i :: 0 <= i < m && KeyFrom(t.order, first, i) == k)
  {
    if limit > 0 && |t.order| > 0 {
      hide Visit, DueAt, After, Table.Valid;
      var n, c, m := |t.order|, Start(t), Steps(t, limit);
      AfterAt(n, c, m);
      DueAtFew(t, now, Visit(n, c, m));
      DueAtElems(t, now, Visit(n, c, m), k);
      Visited(t, c, m, Visit(n, c, m), k);
    }
  }

  lemma {:induction false} Visited(t: Table, c: nat, m: nat, v: seq<nat>, k: string)
    requires c < |t.order| && m <= |t.order| && v == Visit(|t.order|, c, m)
    ensures (exists i :: 0 <= i < |v| && t.order[v[i]] == k) ==> exists i :: 0 <= i < m && KeyFrom(t.order, c, i) == k
    ensures (exists i :: 0 <= i < m && KeyFrom(t.order, c, i) == k) ==> exists i :: 0 <= i < |v| && t.order[v[i]] == k
  {
    hide Visit;
    forall i | 0 <= i < m ensures t.order[v[i]] == KeyFrom(t.order, c, i) {
      VisitAt(|t.order|, c, m, i);
    }
    if exists i :: 0 <= i < |v| && t.order[v[i]] == k {
      var i :| 0 <= i < |v| && t.order[v[i]] == k;
      assert KeyFrom(t.order, c, i) == k;
    }
    if exists i :: 0 <= i < m && KeyFrom(t.order, c, i) == k {
      var i :| 0 <= i < m && KeyFrom(t.order, c, i) == k;
      assert t.order[v[i]] == k;
    }
  }

  lemma {:induction false} AfterAt(n: nat, c: nat, m: nat)
    requires c < n && m <= n
    ensures After(n, c, m) == Wrap(n, c + m)
    decreases m
  {
    if m > 0 {
      if c + 1 < n { AfterAt(n, c + 1, m - 1); } else { AfterAt(n, 0, m - 1); }
    }
  }

  lemma {:induction false} DueAtFew(t: Table, now: int, positions: seq<nat>)
    requires forall i :: 0 <= i < |positions| ==> positions[i] < |t.order|
    ensures |DueAt(t, now, positions)| <= |positions|
  {
    if positions != [] {
      DueAtFew(t, now, positions[1..]);
    }
  }

  // ----- Sweeping -----

  function ClearAll(t: Table, ks: seq<string>): Table
    decreases ks
  {
    if ks == [] then t else ClearAll(t.Clear(ks[0]), ks[1..])
  }

  /** One sweep tick: sample, then clear what was found due. */
  function Sweep(t: Table, now: int, limit: int): Table {
    ClearAll(Collect(t, now, limit).1, Collect(t, now, limit).0)
  }

  function Sweeps(t: Table, now: int, limit: int, m: nat): Table
    decreases m
  {
    if m == 0 then t else Sweeps(Sweep(t, now, limit), now, limit, m - 1)
  }

  /** The number of rounds of `limit` keys that `n` keys need. */
  function Rounds(n: nat, limit: int): nat
    requires limit > 0
  {
    (n + limit - 1) / limit
  }

  lemma {:induction false} RoundsSuffice(n: nat, limit: int)
    requires limit > 0
    ensures Rounds(n, limit) * limit >= n
  {
  }

  lemma {:induction false} ClearAllDeadlines(t: Table, ks: seq<string>)
    requires t.Valid()
    ensures ClearAll(t, ks).Valid()
    ensures forall k :: k in ClearAll(t, ks).deadlines <==> k in t.deadlines && k !in ks
    ensures forall k :: k in ClearAll(t, ks).deadlines ==> ClearAll(t, ks).deadlines[k] == t.deadlines[k]
    ensures |ClearAll(t, ks).order| <= |t.order|
    decreases ks
  {
    if ks != [] {
      ClearValid(t, ks[0]);
      ClearAllDeadlines(t.Clear(ks[0]), ks[1..]);
    }
  }

  lemma {:induction false} SweepShrinks(t: Table, now: int, limit: int)
    requires t.Valid()
    ensures Sweep(t, now, limit).Valid()
    ensures |Sweep(t, now, limit).order| <= |t.order|
    ensures Sweep(t, now, limit).Due(now) <= t.Due(now)
    ensures Collect(t, now, limit).0 != [] ==> Sweep(t, now, limit).Due(now) < t.Due(now)
  {
    CollectSound(t, now, limit);
    ClearAllDeadlines(Collect(t, now, limit).1, Collect(t, now, limit).0);
    if Collect(t, now, limit).0 != [] {
      var k := Collect(t, now, limit).0[0];
      assert k in t.Due(now) && k !in Sweep(t, now, limit).Due(now);
    }
  }

  lemma {:induction false} SweepsShrink(t: Table, now: int, limit: int, m: nat)
    requires t.Valid()
    ensures Sweeps(t, now, limit, m).Valid()
    ensures |Sweeps(t, now, limit, m).order| <= |t.order|
    ensures Sweeps(t, now, limit, m).Due(now) <= t.Due(now)
    decreases m
  {
    if m > 0 {
      SweepShrinks(t, now, limit);
      SweepsShrink(Sweep(t, now, limit), now, limit, m - 1);
    }
  }

  lemma {:induction false} SweepsSplit(t: Table, now: int, limit: int, a: nat, b: nat)
    ensures Sweeps(t, now, limit, a + b) == Sweeps(Sweeps(t, now, limit, a), now, limit, b)
    decreases a
  {
    if a > 0 {
      SweepsSplit(Sweep(t, now, limit), now, limit, a - 1, b);
    }
  }

  /** A sweep that finds nothing only advances the cursor. */
  lemma {:induction false} IdleSweep(t: Table, now: int, limit: int)
    requires t.Valid() && |t.order| > 0 && limit > 0
    requires Collect(t, now, limit).0 == []
    ensures Sweep(t, now, limit) == t.(cursor := After(|t.order|, Start(t), Steps(t, limit)))
    ensures Start(Sweep(t, now, limit)) == After(|t.order|, Start(t), Steps(t, limit))
    ensures Sweep(t, now, limit).Due(now) == t.Due(now)
  {
  }

  lemma {:induction false} VisitBlocks(n: nat, c: nat, steps: nat, m: nat)
    requires c < n && m > 0
    ensures Visit(n, c, m * steps) == Visit(n, c, steps) + Visit(n, After(n, c, steps), (m - 1) * steps)
  {
    assert m * steps == steps + (m - 1) * steps;
    VisitSplit(n, c, steps, (m - 1) * steps);
  }

  /** `m` rounds in a row either clear something, or leave the table alone and prove that none of
      the positions they examined, one after the other, holds a due key. */
  lemma {:induction false} ScanOrShrink(t: Table, now: int, limit: int, m: nat)
    requires t.Valid() && |t.order| > 0 && limit > 0
    ensures Sweeps(t, now, limit, m).Due(now) < t.Due(now)
            || DueAt(t, now, Visit(|t.order|, Start(t), m * Steps(t, limit))) == []
    decreases m, 1
  {
    if m > 0 {
      SweepShrinks(t, now, limit);
      if Collect(t, now, limit).0 != [] {
        SweepsShrink(Sweep(t, now, limit), now, limit, m - 1);
      } else {
        ScanIdle(t, now, limit, m);
      }
    }
  }

  lemma {:induction false} ScanIdle(t: Table, now: int, limit: int, m: nat)
    requires t.Valid() && |t.order| > 0 && limit > 0 && m > 0
    requires Collect(t, now, limit).0 == []
    ensures Sweeps(t, now, limit, m).Due(now) < t.Due(now)
            || DueAt(t, now, Visit(|t.order|, Start(t), m * Steps(t, limit))) == []
    decreases m, 0
  {
    var n, c, steps := |t.order|, Start(t), Steps(t, limit);
    var t1 := Sweep(t, now, limit);
    IdleSweep(t, now, limit);
    ScanOrShrink(t1, now, limit, m - 1);
    VisitBlocks(n, c, steps, m);
    var rest := Visit(n, After(n, c, steps), (m - 1) * steps);
    DueAtAppend(t, now, Visit(n, c, steps), rest);
    DueAtSameOrder(t, t1, now, rest);
  }

  lemma {:induction false} DueAtSameOrder(t: Table, u: Table, now: int, positions: seq<nat>)
    requires u.order == t.order && u.deadlines == t.deadlines
    requires forall i :: 0 <= i < |positions| ==> positions[i] < |t.order|
    ensures DueAt(t, now, positions) == DueAt(u, now, positions)
  {
    if positions != [] {
      DueAtSameOrder(t, u, now, positions[1..]);
    }
  }

  /** Enough consecutive positions hold every tracked key, from any cursor, even one left past the
      end. */
  lemma {:induction false} RoundsVisit(t: Table, limit: int, m: nat, k: string)
    requires t.Valid() && limit > 0 && m * limit >= |t.order| && k in t.deadlines
    ensures exists i ::
              && 0 <= i < m * Steps(t, limit)
              && t.order[Visit(|t.order|, Start(t), m * Steps(t, limit))[i]] == k
  {
    var n, steps := |t.order|, Steps(t, limit);
    if limit >= n {
      assert m >= 1;
      assert m * n >= n;
    }
    var p :| 0 <= p < n && t.order[p] == k;
    VisitCovers(n, Start(t), m * steps, p);
  }

  /** What `m` rounds in a row return, with nothing set or cleared in between. */
  function Collects(t: Table, now: int, limit: int, m: nat): seq<string>
    decreases m
  {
    if m == 0 then [] else Collect(t, now, limit).0 + Collects(Collect(t, now, limit).1, now, limit, m - 1)
  }

  /** Rounds in a row read consecutive positions: each goes on where the last one stopped. */
  lemma {:induction false} CollectsVisit(t: Table, now: int, limit: int, m: nat)
    requires t.Valid() && |t.order| > 0 && limit > 0
    ensures Collects(t, now, limit, m) == DueAt(t, now, Visit(|t.order|, Start(t), m * Steps(t, limit)))
    decreases m
  {
    var n, c, steps := |t.order|, Start(t), Steps(t, limit);
    if m == 0 {
      assert m * steps == 0;
    } else {
      hide Visit, DueAt, Collect, Table.Valid, After;
      CollectRound(t, now, limit);
      CollectsVisit(Collect(t, now, limit).1, now, limit, m - 1);
      VisitBlocks(n, c, steps, m);
      var rest := Visit(n, After(n, c, steps), (m - 1) * steps);
      DueAtAppend(t, now, Visit(n, c, steps), rest);
      DueAtSameOrder(t, Collect(t, now, limit).1, now, rest);
    }
  }

  /** One round reads the next positions, and the cursor stops behind them. */
  lemma {:induction false} CollectRound(t: Table, now: int, limit: int)
    requires t.Valid() && |t.order| > 0 && limit > 0
    ensures Collect(t, now, limit).0 == DueAt(t, now, Visit(|t.order|, Start(t), Steps(t, limit)))
    ensures var t1 := Collect(t, now, limit).1;
            && t1.Valid() && t1.order == t.order && t1.deadlines == t.deadlines
            && Start(t1) == After(|t.order|, Start(t), Steps(t, limit))
  {
  }

  /** Cursor coverage: with nothing set or cleared in between, enough rounds in a row return exactly
      the due keys, from any cursor, even one left past the end. */
  lemma {:induction false} RoundsCover(t: Table, now: int, limit: int, m: nat, k: string)
    requires t.Valid() && limit > 0 && m * limit >= |t.order|
    ensures k in Collects(t, now, limit, m) <==> k in t.Due(now)
  {
    if |t.order| == 0 {
      NothingCollected(t, now, limit, m);
    } else {
      CollectsVisit(t, now, limit, m);
      DueAtElems(t, now, Visit(|t.order|, Start(t), m * Steps(t, limit)), k);
      if k in t.deadlines {
        RoundsVisit(t, limit, m, k);
      }
    }
  }

  lemma {:induction false} NothingCollected(t: Table, now: int, limit: int, m: nat)
    requires t.order == []
    ensures Collects(t, now, limit, m) == []
    decreases m
  {
    if m > 0 {
      NothingCollected(t, now, limit, m - 1);
    }
  }

  /** If some key is due, enough rounds clear at least one. */
  lemma {:induction false} SweepsProgress(t: Table, now: int, limit: int, m: nat)
    requires t.Valid() && limit > 0 && m * limit >= |t.order| && t.Due(now) != {}
    ensures Sweeps(t, now, limit, m).Due(now) < t.Due(now)
  {
    var k :| k in t.Due(now);
    assert k in t.order;
    ScanOrShrink(t, now, limit, m);
    RoundsVisit(t, limit, m, k);
    DueAtElems(t, now, Visit(|t.order|, Start(t), m * Steps(t, limit)), k);
  }

  lemma {:induction false} SweepsClear(t: Table, now: int, limit: int, m: nat, due: nat)
    requires t.Valid() && limit > 0 && m * limit >= |t.order|
    requires |t.Due(now)| <= due
    ensures Sweeps(t, now, limit, due * m).Due(now) == {}
    decreases due
  {
    hide Sweeps, Table.Valid, Table.Due;
    if t.Due(now) == {} {
      SweepsShrink(t, now, limit, due * m);
    } else {
      var u := Sweeps(t, now, limit, m);
      SweepsProgress(t, now, limit, m);
      SweepsShrink(t, now, limit, m);
      SubsetSize(u.Due(now), t.Due(now));
      SweepsClear(u, now, limit, m, due - 1);
      Distribute(due, m);
      SweepsSplit(t, now, limit, m, (due - 1) * m);
    }
  }

  lemma {:induction false} Distribute(due: nat, m: nat)
    ensures due * m == m + (due - 1) * m
  {
  }

  lemma {:induction false} SubsetSize(a: set<string>, b: set<string>)
    requires a < b
    ensures |a| < |b|
  {
    var x :| x in b && x !in a;
    assert a <= b - {x};
    SubsetSizeLe(a, b - {x});
  }

  lemma {:induction false} SubsetSizeLe(a: set<string>, b: set<string>)
    requires a <= b
    ensures |a| <= |b|
  {
    if a != {} {
      var x :| x in a;
      SubsetSizeLe(a - {x}, b - {x});
    }
  }

  /** Sweep liveness: with the clock fixed, n tracked keys of which E are due, and samples of
      `limit` keys, no due key survives E * ceil(n / limit) sweeps, although swap-remove moves
      keys behind the cursor. */
  lemma {:induction false} SweepLiveness(t: Table, now: int, limit: int)
    requires t.Valid() && limit > 0
    ensures Sweeps(t, now, limit, |t.Due(now)| * Rounds(|t.order|, limit)).Due(now) == {}
  {
    RoundsSuffice(|t.order|, limit);
    SweepsClear(t, now, limit, Rounds(|t.order|, limit), |t.Due(now)|);
  }

  // ----- The manager -----

  /** The dense array and the position index are mutual inverses. */
  ghost predicate Inverse(keys: seq<string>, pos: map<string, nat>) {
    && (forall i :: 0 <= i < |keys| ==> keys[i] in pos && pos[keys[i]] == i)
    && (forall k :: k in pos ==> pos[k] < |keys| && keys[pos[k]] == k)
  }

  /** Swap-remove with the moved key re-indexed keeps the inverse. */
  lemma {:induction false} InverseSwapRemove(keys: seq<string>, pos: map<string, nat>, k: string)
    requires Inverse(keys, pos) && k in pos
    ensures k in keys && IndexOf(keys, k) == pos[k]
    ensures keys[|keys| - 1] in pos
    ensures Inverse(SwapRemove(keys, pos[k]), Reindexed(keys, pos, k))
    ensures Reindexed(keys, pos, k).Keys == pos.Keys - {k}
  {
  }

  function Reindexed(keys: seq<string>, pos: map<string, nat>, k: string): map<string, nat>
    requires k in pos && keys != []
  {
    if pos[k] == |keys| - 1 then pos - {k} else (pos - {k})[keys[|keys| - 1] := pos[k]]
  }

  class ExpiryManager {
    var expiresAt: map<string, int>
    var keys: seq<string>
    var pos: map<string, nat>
    var cursor: nat

    ghost predicate Valid()
      reads `expiresAt, `keys, `pos
    {
      pos.Keys == expiresAt.Keys && Inverse(keys, pos)
    }

    ghost function View(): Table
      reads this
    {
      Table(expiresAt, keys, cursor)
    }

    constructor ()
      ensures Valid() && View() == EMPTY
    {
      expiresAt, keys, pos, cursor := map[], [], map[], 0;
    }

    /** The inverse maps make the abstract table valid. */
    lemma {:induction false} ViewValid()
      requires Valid()
      ensures View().Valid()
    {
    }

    method Size() returns (n: nat)
      requires Valid()
      ensures n == |View().order|
    {
      ViewValid();
      NoDupSize(keys, expiresAt.Keys);
      n := |expiresAt|;
    }

    method Has(k: string) returns (b: bool)
      ensures b <==> k in View().deadlines
    {
      b := k in expiresAt;
    }

    method Set(k: string, at: int)
      requires Valid()
      modifies this
      ensures Valid() && View() == old(View()).Set(k, at)
    {
      if k in expiresAt {
        expiresAt := expiresAt[k := at];
        return;
      }
      expiresAt := expiresAt[k := at];
      pos := pos[k := |keys|];
      keys := keys + [k];
    }

    method Clear(k: string) returns (found: bool)
      requires Valid()
      modifies this
      ensures Valid() && View() == old(View()).Clear(k)
      ensures found <==> k in old(View()).deadlines
    {
      if k !in pos {
        ViewValid();
        return false;
      }
      InverseSwapRemove(keys, pos, k);
      ghost var swapped, reindexed := SwapRemove(keys, pos[k]), Reindexed(keys, pos, k);
      assert Inverse(swapped, reindexed);
      var idx := pos[k];
      expiresAt := expiresAt - {k};
      pos := pos - {k};
      var lastIdx := |keys| - 1;
      var lastKey := keys[lastIdx];
      if idx != lastIdx {
        keys := keys[idx := lastKey];
        pos := pos[lastKey := idx];
      }
      keys := keys[..lastIdx];
      assert keys == swapped;
      assert pos == reindexed;
      return true;
    }

    method IsExpired(k: string, now: int) returns (b: bool)
      ensures b <==> View().IsExpired(k, now)
    {
      b := k in expiresAt && now >= expiresAt[k];
    }

    method RemainingMs(k: string, now: int) returns (ms: Option<nat>)
      ensures ms == if k !in View().deadlines then None
                    else if View().deadlines[k] <= now then Some(0)
                    else Some(View().deadlines[k] - now)
    {
      if k !in expiresAt {
        return None;
      }
      var left := expiresAt[k] - now;
      return Some(if left > 0 then left else 0);
    }

    method CollectExpired(now: int, limit: int) returns (expired: seq<string>)
      requires Valid()
      modifies `cursor
      ensures Valid()
      ensures expired == Collect(old(View()), now, limit).0
      ensures View() == Collect(old(View()), now, limit).1
    {
      var n := |keys|;
      if n == 0 || limit <= 0 {
        return [];
      }
      expired := Examine(now, if limit < n then limit else n);
      if |keys| > 0 {
        ModWraps(n, cursor);
        cursor := cursor % |keys|;
      }
    }

    /** The loop of `CollectExpired`: it leaves the cursor one past the last examined key. */
    method Examine(now: int, steps: nat) returns (expired: seq<string>)
      requires Valid() && 0 < steps <= |keys|
      modifies `cursor
      ensures expired == DueAt(old(View()), now, Visit(|keys|, Start(old(View())), steps))
      ensures 0 < cursor <= |keys|
      ensures (if cursor >= |keys| then 0 else cursor) == After(|keys|, Start(old(View())), steps)
    {
      expired := [];
      ghost var t, n, start := View(), |keys|, Start(View());
      var i := 0;
      while i < steps
        invariant 0 <= i <= steps
        invariant expired == DueAt(t, now, Visit(n, start, i))
        invariant i > 0 ==> 0 < cursor <= n
        invariant (if cursor >= n then 0 else cursor) == After(n, start, i)
      {
        DueAtStep(t, now, start, i);
        if cursor >= |keys| {
          cursor := 0;
        }
        var k := keys[cursor];
        if now >= expiresAt[k] {
          expired := expired + [k];
        }
        cursor := cursor + 1;
        i := i + 1;
      }
    }
  }
}
