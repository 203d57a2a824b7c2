/** What actuator and reporter share: a mutex, the last parsed plan id and a channel with room for one report token. */
module SharedState {

  /** A buffered channel of capacity 1; sends and receives never block. */
  datatype Channel = Channel(full: bool) {
    /** A send that is dropped when the channel is full. */
    function Send(): Channel {
      Channel(true)
    }

    /** A receive that gives up when the channel is empty. */
    function Receive(): (bool, Channel) {
      (full, Channel(false))
    }
  }

  class SharedState {
    var locked: bool
    var lastParsedPlanId: string
    var buffered: seq<()>

    ghost predicate Valid()
      reads this
    {
      |buffered| <= 1
    }

    ghost function Reports(): Channel
      reads this
    {
      Channel(|buffered| > 0)
    }

    constructor ()
      ensures Valid() && Reports() == Channel(false) && !locked && lastParsedPlanId == ""
    {
      locked, lastParsedPlanId, buffered := false, "", [];
    }

    method OnReportDone()
      requires Valid()
      modifies this`buffered
      ensures Valid() && Reports() == old(Reports()).Send()
    {
      if |buffered| < 1 {
        buffered := buffered + [()];
      }
    }

    method OnApplyDone()
      requires Valid()
      modifies this`buffered
      ensures Valid() && Reports() == old(Reports()).Receive().1
    {
      if |buffered| > 0 {
        buffered := buffered[1..];
      }
    }

    /** Asking takes the token: a second call in a row gets the answer false. */
    method AtLeastOneReportSinceLastApply() returns (any: bool)
      requires Valid()
      modifies this`buffered
      ensures Valid() && (any, Reports()) == old(Reports()).Receive()
    {
      any := |buffered| > 0;
      if any {
        buffered := buffered[1..];
      }
    }
  }
}
