/** What stands before the commands: the password, the disabled commands, and the restriction of
    subscribed connections. */
module Guarding {
  import opened Options
  import opened CommandParser
  import opened Execution
  import opened Transactions
  import PubSub
  import Replies

  datatype Policy = Policy(password: Option<string>, disabled: set<string>)

  datatype Guarded = Guarded(handler: Handler, authenticated: set<string>)

  function NameFor(c: Command): string { NameOf(WordFor(c)) }

  const RESTRICTED := "only (P)SUBSCRIBE / " + "(P)UNSUBSCRIBE / PING / " + "QUIT allowed in this context"

  /** A connection that holds a channel may only change what it holds. */
  predicate Restricted(g: Engine, conn: string, c: Command) {
    PubSub.IsSubscribed(g.registry, conn) && !c.Subscribe? && !c.Unsubscribe?
  }

  /** The guarded reaction to one line. */
  function HandleGuarded(p: Policy, g: Guarded, conn: string, now: int, text: string): (Guarded, Answer) {
    var parsed := Parse(text);
    if parsed.Malformed? then (g, Reply(Replies.Error(parsed.message)))
    else if p.password.Some? && conn !in g.authenticated then
      if !parsed.command.Auth? then (g, Reply(Replies.Error("NOAUTH Authentication required.")))
      else if parsed.command.password != p.password.value then (g, Reply(Replies.Error("invalid password")))
      else (g.(authenticated := g.authenticated + {conn}), Reply(Replies.Ok("OK")))
    else if NameFor(parsed.command) in p.disabled then (g, Reply(Replies.Error("command disabled")))
    else if Restricted(g.handler.engine, conn, parsed.command) then (g, Reply(Replies.Error(RESTRICTED)))
    else
      var (h, answer) := HandleLine(g.handler, conn, now, text);
      (g.(handler := h), answer)
  }

  function Guard(p: Policy, g: Guarded, i: Input): Guarded {
    match i
    case Line(conn, now, text) => HandleGuarded(p, g, conn, now, text).0
    case Background(_) => g.(handler := Handle(g.handler, i))
  }

  function GuardAll(p: Policy, g: Guarded, trace: seq<Input>): Guarded {
    if trace == [] then g
    else Guard(p, GuardAll(p, g, trace[..|trace| - 1]), trace[|trace| - 1])
  }

  function Locked(g: Engine): Guarded { Guarded(Start(g), {}) }
}
