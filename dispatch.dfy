/**
 * The inbound gate chain every draft runs on a message, and the per-socket
 * `openRequests` list it consults: text -> parse -> envelope check -> command
 * lookup -> payload check -> duplicate request-id check -> handler.
 */
module Dispatch {

  import opened Wrappers
  import opened Json
  import opened Messages

  /** No request id occurs twice in the list. */
  predicate NoDuplicates(s: seq<RequestId>)
  {
    forall i, j :: 0 <= i < j < |s| ==> s[i] != s[j]
  }

  /** `openRequests.removeValue(x)`: drops the first occurrence of `x`, if any. */
  function RemoveValue(s: seq<RequestId>, x: RequestId): (r: seq<RequestId>)
    ensures multiset(r) == multiset(s) - multiset{x}
    ensures |r| == if x in s then |s| - 1 else |s|
  {
    if s == [] then []
    else
      assert s == [s[0]] + s[1..];
      if s[0] == x then s[1..]
      else [s[0]] + RemoveValue(s[1..], x)
  }

  /** The tail of a duplicate-free list is duplicate-free and does not hold its head. */
  lemma NoDuplicatesTail(s: seq<RequestId>)
    requires s != [] && NoDuplicates(s)
    ensures NoDuplicates(s[1..]) && s[0] !in s[1..]
  {
    forall i, j | 0 <= i < j < |s[1..]| ensures s[1..][i] != s[1..][j] {
      assert s[1..][i] == s[i + 1] && s[1..][j] == s[j + 1];
    }
    forall k | 0 <= k < |s[1..]| ensures s[1..][k] != s[0] {
      assert s[1..][k] == s[k + 1];
    }
  }

  /** Prefixing a value a duplicate-free list does not hold keeps it duplicate-free. */
  lemma NoDuplicatesCons(a: RequestId, t: seq<RequestId>)
    requires NoDuplicates(t) && a !in t
    ensures NoDuplicates([a] + t)
  {
    var r := [a] + t;
    forall i, j | 0 <= i < j < |r| ensures r[i] != r[j] {
      assert r[j] == t[j - 1];
      if i > 0 {
        assert r[i] == t[i - 1];
      }
    }
  }

  /** On a duplicate-free list, `removeValue` removes every occurrence and keeps the list duplicate-free. */
  lemma {:induction false} RemoveValueNoDuplicates(s: seq<RequestId>, x: RequestId)
    requires NoDuplicates(s)
    ensures x !in RemoveValue(s, x)
    ensures NoDuplicates(RemoveValue(s, x))
    ensures forall y :: y != x ==> (y in RemoveValue(s, x) <==> y in s)
  {
    if s != [] {
      NoDuplicatesTail(s);
      assert s == [s[0]] + s[1..];
      if s[0] != x {
        RemoveValueNoDuplicates(s[1..], x);
        var t := RemoveValue(s[1..], x);
        assert RemoveValue(s, x) == [s[0]] + t;
        NoDuplicatesCons(s[0], t);
      }
    }
  }

  /** Removing an id that was just appended to a list not holding it gives the list back. */
  lemma {:induction false} RemoveAppended(s: seq<RequestId>, x: RequestId)
    requires x !in s
    ensures RemoveValue(s + [x], x) == s
  {
    if s != [] {
      assert (s + [x])[0] == s[0];
      assert (s + [x])[1..] == s[1..] + [x];
      RemoveAppended(s[1..], x);
      assert [s[0]] + s[1..] == s;
    }
  }

  /** Where the gate chain stopped, and with what. */
  datatype Gate =
    | ParseFailed                                   // JSON.parse threw
    | InvalidMessage                                // the envelope check failed
    | UnknownCommand(cmd: string)                   // no command of that name: silent return
    | InvalidPayload(cmd: string)                   // the command's payload check failed
    | DuplicateRequest(request: Request)            // its id is already open
    | Dispatched(request: Request, command: Command) // the handler was started
  {
    /** Whether this outcome is handed to the diagnostic sink (`handleError`). */
    predicate Reported()
    {
      ParseFailed? || InvalidMessage? || InvalidPayload? || DuplicateRequest?
    }
  }

  /** Parsing followed by the envelope check. */
  function Inbound(text: string, parse: string -> Option<Json>): Option<Message>
  {
    match parse(text)
    case None => None
    case Some(v) => CheckMessage(v)
  }

  /** The gate chain, run against the socket's current `openRequests`. */
  function Admit(text: string, parse: string -> Option<Json>, conforms: (Json, Json) -> bool,
                 commands: map<string, Command>, open: seq<RequestId>): (g: Gate)
    ensures g.ParseFailed? <==> parse(text).None?
    ensures g.InvalidMessage? <==> parse(text).Some? && CheckMessage(parse(text).value).None?
    ensures g.UnknownCommand? <==> Inbound(text, parse).Some? && Inbound(text, parse).value.cmd !in commands
    ensures g.InvalidPayload? <==>
      && Inbound(text, parse).Some? && Inbound(text, parse).value.cmd in commands
      && !conforms(commands[Inbound(text, parse).value.cmd].types, JObject(Inbound(text, parse).value.payload))
    ensures g.DuplicateRequest? || g.Dispatched? <==>
      && Inbound(text, parse).Some? && Inbound(text, parse).value.cmd in commands
      && conforms(commands[Inbound(text, parse).value.cmd].types, JObject(Inbound(text, parse).value.payload))
    ensures g.DuplicateRequest? || g.Dispatched? ==>
      && g.request == NewRequest(Inbound(text, parse).value, commands[Inbound(text, parse).value.cmd])
      && (g.Dispatched? <==> g.request.Id() !in open)
    ensures g.Dispatched? ==> g.command == commands[Inbound(text, parse).value.cmd]
  {
    match parse(text)
    case None => ParseFailed
    case Some(v) =>
      match CheckMessage(v)
      case None => InvalidMessage
      case Some(m) =>
        if m.cmd !in commands then UnknownCommand(m.cmd)
        else
          var command := commands[m.cmd];
          if !conforms(command.types, JObject(m.payload)) then InvalidPayload(m.cmd)
          else
            var request := NewRequest(m, command);
            if request.Id() in open then DuplicateRequest(request)
            else Dispatched(request, command)
  }

  /** `openRequests` after the gate chain: only a dispatched request adds its id. */
  function OpenAfter(open: seq<RequestId>, g: Gate): seq<RequestId>
  {
    if g.Dispatched? then open + [g.request.Id()] else open
  }

  /** The gate chain keeps `openRequests` duplicate-free. */
  lemma AdmitKeepsNoDuplicates(text: string, parse: string -> Option<Json>, conforms: (Json, Json) -> bool,
                               commands: map<string, Command>, open: seq<RequestId>)
    requires NoDuplicates(open)
    ensures NoDuplicates(OpenAfter(open, Admit(text, parse, conforms, commands, open)))
  {
    var g := Admit(text, parse, conforms, commands, open);
    if g.Dispatched? {
      var s := open + [g.request.Id()];
      forall i, j | 0 <= i < j < |s| ensures s[i] != s[j] {
        if j == |open| {
          assert s[i] == open[i];
        }
      }
    }
  }

  /**
   * A message stopped by a gate leaves `openRequests` as it was and runs no
   * handler; every such stop is reported except an unknown command, which
   * returns silently.
   */
  lemma RejectionsChangeNothing(text: string, parse: string -> Option<Json>, conforms: (Json, Json) -> bool,
                                commands: map<string, Command>, open: seq<RequestId>)
    ensures !Admit(text, parse, conforms, commands, open).Dispatched? ==>
              OpenAfter(open, Admit(text, parse, conforms, commands, open)) == open
    ensures Admit(text, parse, conforms, commands, open).Reported() <==>
              !Admit(text, parse, conforms, commands, open).UnknownCommand? &&
              !Admit(text, parse, conforms, commands, open).Dispatched?
  {
  }

  /**
   * The handler sees the message's payload and meta unchanged, and, when every
   * command is filed under its own name, the message's `cmd`.
   */
  lemma DispatchedRequestMatchesMessage(text: string, parse: string -> Option<Json>, conforms: (Json, Json) -> bool,
                              commands: map<string, Command>, open: seq<RequestId>)
    requires forall k :: k in commands ==> commands[k].cmd == k
    ensures Admit(text, parse, conforms, commands, open).Dispatched? ==>
      && Inbound(text, parse).Some?
      && Admit(text, parse, conforms, commands, open).request.cmd == Inbound(text, parse).value.cmd
      && Admit(text, parse, conforms, commands, open).request.payload == Inbound(text, parse).value.payload
      && Admit(text, parse, conforms, commands, open).request.meta == Inbound(text, parse).value.meta
  {
  }

  /**
   * While a dispatched id stays open (its handler has not resolved, or it
   * failed, which never releases it), the same message is rejected as a
   * duplicate and its handler does not run again.
   */
  lemma OpenIdBlocksResend(text: string, parse: string -> Option<Json>, conforms: (Json, Json) -> bool,
                           commands: map<string, Command>, open: seq<RequestId>, later: seq<RequestId>)
    requires Admit(text, parse, conforms, commands, open).Dispatched?
    requires Admit(text, parse, conforms, commands, open).request.Id() in later
    ensures Admit(text, parse, conforms, commands, later)
            == DuplicateRequest(Admit(text, parse, conforms, commands, open).request)
  {
  }

  /**
   * Dispatch followed by a successful completion leaves `openRequests` as it
   * was, so the same id can be used again afterwards.
   */
  lemma {:induction false} CompletionReleasesId(text: string, parse: string -> Option<Json>, conforms: (Json, Json) -> bool,
                                                commands: map<string, Command>, open: seq<RequestId>)
    requires Admit(text, parse, conforms, commands, open).Dispatched?
    ensures RemoveValue(OpenAfter(open, Admit(text, parse, conforms, commands, open)),
                        Admit(text, parse, conforms, commands, open).request.Id()) == open
    ensures Admit(text, parse, conforms, commands,
                  RemoveValue(OpenAfter(open, Admit(text, parse, conforms, commands, open)),
                              Admit(text, parse, conforms, commands, open).request.Id()))
            == Admit(text, parse, conforms, commands, open)
  {
    var g := Admit(text, parse, conforms, commands, open);
    RemoveAppended(open, g.request.Id());
  }
}
