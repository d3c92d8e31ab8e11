/** A model of `Status`: either success, or an error code with a message.
    The byte array `state_` (length, code, message) is abstracted to an
    optional `ErrorState`; a null `state_` is `None`. */
module Statuses {
  import opened Basics

  datatype StatusCode =
    | Ok | Cancelled | Unknown | InvalidArgument | DeadlineExceeded | NotFound
    | AlreadyExists | PermissionDenied | ResourceExhausted | FailedPrecondition
    | Aborted | OutOfRange | Unimplemented | Internal | Unavailable

  /** The numeric value of each enumerator. */
  function CodeValue(c: StatusCode): (v: int)
    ensures 0 <= v <= 14
    ensures v == 0 <==> c == Ok
  {
    match c
    case Ok => 0
    case Cancelled => 1
    case Unknown => 2
    case InvalidArgument => 3
    case DeadlineExceeded => 4
    case NotFound => 5
    case AlreadyExists => 6
    case PermissionDenied => 7
    case ResourceExhausted => 8
    case FailedPrecondition => 9
    case Aborted => 10
    case OutOfRange => 11
    case Unimplemented => 12
    case Internal => 13
    case Unavailable => 14
  }

  /** `static_cast<StatusCode>(v)` for the values that name an enumerator. */
  function CodeFromValue(v: int): (c: Option<StatusCode>)
    ensures c.Some? <==> 0 <= v <= 14
  {
    if v == 0 then Some(Ok)
    else if v == 1 then Some(Cancelled)
    else if v == 2 then Some(Unknown)
    else if v == 3 then Some(InvalidArgument)
    else if v == 4 then Some(DeadlineExceeded)
    else if v == 5 then Some(NotFound)
    else if v == 6 then Some(AlreadyExists)
    else if v == 7 then Some(PermissionDenied)
    else if v == 8 then Some(ResourceExhausted)
    else if v == 9 then Some(FailedPrecondition)
    else if v == 10 then Some(Aborted)
    else if v == 11 then Some(OutOfRange)
    else if v == 12 then Some(Unimplemented)
    else if v == 13 then Some(Internal)
    else if v == 14 then Some(Unavailable)
    else None
  }

  /** The codes are exactly the values 0..14, one per enumerator. */
  lemma CodeValuesRoundTrip(c: StatusCode, v: int)
    ensures CodeFromValue(CodeValue(c)) == Some(c)
    ensures 0 <= v <= 14 ==> CodeValue(CodeFromValue(v).value) == v
  {
  }

  /** The name under which a code is rendered by `ToString`. */
  function CodeName(c: StatusCode): string
  {
    match c
    case Ok => "OK"
    case Cancelled => "Cancelled"
    case Unknown => "Unknown"
    case InvalidArgument => "Invalid argument"
    case DeadlineExceeded => "Deadline exceeded"
    case NotFound => "Not found"
    case AlreadyExists => "Already exists"
    case PermissionDenied => "Permission denied"
    case ResourceExhausted => "Resource exhausted"
    case FailedPrecondition => "Failed precondition"
    case Aborted => "Aborted"
    case OutOfRange => "Out of range"
    case Unimplemented => "Unimplemented"
    case Internal => "Internal"
    case Unavailable => "Unavailable"
  }

  datatype ErrorRecord = ErrorRecord(code: StatusCode, message: string)

  /** What a non-null `state_` holds: an error code and its message. */
  type ErrorState = e: ErrorRecord | e.code != Ok witness ErrorRecord(Unknown, "")

  class Status {
    var state: Option<ErrorState>

    /** `Status()`: success. */
    constructor ()
      ensures state == None
    {
      state := None;
    }

    /** `Status(code, msg)` for an error code. */
    constructor Error(code: StatusCode, message: string)
      requires code != Ok
      ensures state == Some(ErrorRecord(code, message))
    {
      state := Some(ErrorRecord(code, message));
    }

    /** The copy constructor: an equal status. */
    constructor Copy(rhs: Status)
      ensures state == rhs.state
    {
      state := rhs.state;
    }

    /** The move constructor: takes the state of `rhs` and leaves `rhs` ok. */
    constructor Move(rhs: Status)
      modifies rhs
      ensures state == old(rhs.state) && rhs.state == None
    {
      state := rhs.state;
      new;
      rhs.state := None;
    }

    /** Copy assignment. The pointer test skips the copy on self-assignment and
        when both sides are ok; in every case the result equals `rhs`. */
    method Assign(rhs: Status)
      modifies this
      ensures state == old(rhs.state)
      ensures rhs == this ==> state == old(state)
    {
      if this != rhs && !(state.None? && rhs.state.None?) {
        state := rhs.state;
      }
    }

    /** Move assignment: exchanges the two states. */
    method MoveAssign(rhs: Status)
      modifies this, rhs
      ensures state == old(rhs.state) && rhs.state == old(state)
    {
      var mine := state;
      state := rhs.state;
      rhs.state := mine;
    }

    /** `Update(const Status&)`: keeps the first error; an ok status takes
        `newStatus`. */
    method Update(newStatus: Status)
      modifies this
      ensures state == if old(state).None? then old(newStatus.state) else old(state)
      ensures old(!IsOk()) ==> Code() == old(Code())
    {
      if IsOk() {
        Assign(newStatus);
      }
    }

    /** `Update(Status&&)`: keeps the first error; an ok status swaps with
        `newStatus`, which is left ok. */
    method UpdateMove(newStatus: Status)
      modifies this, newStatus
      ensures state == if old(state).None? then old(newStatus.state) else old(state)
      ensures newStatus != this ==>
                newStatus.state == if old(state).None? then None else old(newStatus.state)
    {
      if IsOk() {
        MoveAssign(newStatus);
      }
    }

    /** `code()`: `kOk` for success, otherwise the stored code. */
    function Code(): (c: StatusCode)
      reads this
      ensures c == Ok <==> IsOk()
    {
      match state
      case None => Ok
      case Some(e) => e.code
    }

    /** `ok()` */
    predicate IsOk()
      reads this
    {
      state.None?
    }

    /** `operator bool` */
    predicate AsBool()
      reads this
      ensures AsBool() <==> IsOk()
    {
      IsOk()
    }

    /** `ToString()`: "OK" for success, otherwise the code name and message. */
    function ToString(): (s: string)
      reads this
      ensures s == "OK" <==> IsOk()
    {
      match state
      case None => "OK"
      case Some(e) =>
        var s := CodeName(e.code) + ": " + e.message;
        assert s[|CodeName(e.code)|] == ':';
        s
    }
  }

  /** `OkStatus()` */
  method OkStatus() returns (s: Status)
    ensures fresh(s) && s.IsOk()
  {
    s := new Status();
  }
}
