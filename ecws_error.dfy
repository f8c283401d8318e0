/**
 * The error builder of src/shared/ECWSError.ts: an error starts as a generic
 * internal error, fluent setters change its status and message, and only a
 * pass-through error shows its real status and message in `getJSON`.
 */
module ECWSErrors {

  const InternalStatus: int := 500
  const InternalMessage: string := "Internal server error."

  /** The three fields of an ECWSError. */
  datatype ErrorState = ErrorState(status: int, message: string, shouldShow: bool)

  /** What `getJSON` returns (IECWSError). */
  datatype ErrorJSON = ErrorJSON(status: int, message: string)

  /** The state of `new ECWSError()` / `ECWSError.init()`. */
  function Initial(): (e: ErrorState)
    ensures e.status == 500 && e.message == "Internal server error." && !e.shouldShow
  {
    ErrorState(InternalStatus, InternalMessage, false)
  }

  /** `getJSON` as a function of the fields. */
  function Exposed(e: ErrorState): (r: ErrorJSON)
  {
    if e.shouldShow then ErrorJSON(e.status, e.message) else ErrorJSON(InternalStatus, InternalMessage)
  }

  /** One fluent call: `code(v)`, `msg(s)` or `passthrough()`. */
  datatype Builder = SetCode(code: int) | SetMsg(msg: string) | SetPassthrough

  function Step(e: ErrorState, b: Builder): ErrorState
  {
    match b
    case SetCode(v) => e.(status := v)
    case SetMsg(s) => e.(message := s)
    case SetPassthrough => e.(shouldShow := true)
  }

  /** The state after applying a chain of fluent calls in order. */
  function Chain(e: ErrorState, bs: seq<Builder>): ErrorState
  {
    if bs == [] then e else Step(Chain(e, bs[..|bs| - 1]), bs[|bs| - 1])
  }

  /** The argument of the last `code` call in the chain, or `d` if there is none. */
  function LastCode(bs: seq<Builder>, d: int): int
  {
    if bs == [] then d
    else if bs[|bs| - 1].SetCode? then bs[|bs| - 1].code
    else LastCode(bs[..|bs| - 1], d)
  }

  /** The argument of the last `msg` call in the chain, or `d` if there is none. */
  function LastMsg(bs: seq<Builder>, d: string): string
  {
    if bs == [] then d
    else if bs[|bs| - 1].SetMsg? then bs[|bs| - 1].msg
    else LastMsg(bs[..|bs| - 1], d)
  }

  /** `code` sets only the status. */
  lemma CodeSetsStatusOnly(e: ErrorState, v: int)
    ensures Step(e, SetCode(v)).status == v
    ensures Step(e, SetCode(v)).message == e.message && Step(e, SetCode(v)).shouldShow == e.shouldShow
  {
  }

  /** `msg` sets only the message. */
  lemma MsgSetsMessageOnly(e: ErrorState, s: string)
    ensures Step(e, SetMsg(s)).message == s
    ensures Step(e, SetMsg(s)).status == e.status && Step(e, SetMsg(s)).shouldShow == e.shouldShow
  {
  }

  /** `passthrough` turns the flag on, touches nothing else and is idempotent. */
  lemma PassthroughIdempotent(e: ErrorState)
    ensures Step(e, SetPassthrough).shouldShow
    ensures Step(e, SetPassthrough).status == e.status && Step(e, SetPassthrough).message == e.message
    ensures Step(Step(e, SetPassthrough), SetPassthrough) == Step(e, SetPassthrough)
  {
  }

  /**
   * After any chain of fluent calls the fields are: the last status set, the
   * last message set, and the flag on iff it was on or `passthrough` was called.
   */
  lemma {:induction false} ChainFields(e: ErrorState, bs: seq<Builder>)
    ensures Chain(e, bs) == ErrorState(LastCode(bs, e.status), LastMsg(bs, e.message),
                                       e.shouldShow || SetPassthrough in bs)
  {
    if bs != [] {
      var init := bs[..|bs| - 1];
      ChainFields(e, init);
      assert bs == init + [bs[|bs| - 1]];
    }
  }

  /**
   * `getJSON` depends only on the final fields: two chains that agree on the
   * last status, the last message and whether `passthrough` was called give
   * the same JSON, whatever the order of the calls.
   */
  lemma OrderIrrelevant(e: ErrorState, bs1: seq<Builder>, bs2: seq<Builder>)
    requires LastCode(bs1, e.status) == LastCode(bs2, e.status)
    requires LastMsg(bs1, e.message) == LastMsg(bs2, e.message)
    requires (SetPassthrough in bs1) == (SetPassthrough in bs2)
    ensures Chain(e, bs1) == Chain(e, bs2)
    ensures Exposed(Chain(e, bs1)) == Exposed(Chain(e, bs2))
  {
    ChainFields(e, bs1);
    ChainFields(e, bs2);
  }

  /**
   * No internal detail leaks: a fresh error never passed through `passthrough`
   * shows status 500 and the generic message whatever `code`/`msg` set.
   */
  lemma NoLeakWithoutPassthrough(bs: seq<Builder>)
    requires SetPassthrough !in bs
    ensures Exposed(Chain(Initial(), bs)) == ErrorJSON(500, "Internal server error.")
  {
    ChainFields(Initial(), bs);
  }

  /** With pass-through, `getJSON` shows exactly the last status and message set. */
  lemma PassthroughShowsFields(e: ErrorState, bs: seq<Builder>)
    requires SetPassthrough in bs
    ensures Exposed(Chain(e, bs)) == ErrorJSON(LastCode(bs, e.status), LastMsg(bs, e.message))
  {
    ChainFields(e, bs);
  }

  class ECWSError {
    var shouldShow: bool
    var status: int
    var message: string

    function State(): ErrorState
      reads this
    {
      ErrorState(status, message, shouldShow)
    }

    constructor ()
      ensures State() == Initial()
    {
      shouldShow := false;
      status := InternalStatus;
      message := InternalMessage;
    }

    static method Init() returns (e: ECWSError)
      ensures fresh(e) && e.State() == Initial()
    {
      e := new ECWSError();
    }

    method Code(value: int) returns (self: ECWSError)
      modifies this
      ensures self == this
      ensures State() == Step(old(State()), SetCode(value))
    {
      status := value;
      self := this;
    }

    method Msg(value: string) returns (self: ECWSError)
      modifies this
      ensures self == this
      ensures State() == Step(old(State()), SetMsg(value))
    {
      message := value;
      self := this;
    }

    method Passthrough() returns (self: ECWSError)
      modifies this
      ensures self == this
      ensures State() == Step(old(State()), SetPassthrough)
    {
      shouldShow := true;
      self := this;
    }

    /** Reads the fields and changes nothing. */
    function GetJSON(): (r: ErrorJSON)
      reads this
      ensures shouldShow ==> r == ErrorJSON(status, message)
      ensures !shouldShow ==> r == ErrorJSON(500, "Internal server error.")
      ensures r == Exposed(State())
    {
      ErrorJSON(if shouldShow then status else InternalStatus,
                if shouldShow then message else InternalMessage)
    }
  }
}
