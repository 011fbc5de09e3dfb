/** The SDK's pagination bag, a stack whose top is held apart
    (baton-sdk pkg/pagination/pagination.go), and its page-token encoding. */
module Pagination {
  import opened Wrappers

  datatype PageState = PageState(phase: string, token: string)

  /** The value of a bag. Only a hand-made token can leave `current` empty
      above saved states. */
  datatype BagState = BagState(states: seq<PageState>, current: Option<PageState>) {

    function Push(s: PageState): BagState {
      if current.None? then this.(current := Some(s))
      else BagState(states + [current.value], Some(s))
    }

    function Pop(): BagState {
      if current.None? then this
      else if states == [] then BagState([], None)
      else BagState(states[..|states| - 1], Some(states[|states| - 1]))
    }
  }

  /** A serialised bag. The JSON text itself is not modelled: a token is the
      empty string, undecodable, or stands for the bag it decodes to. */
  datatype Token = NoToken | Corrupt | Encoded(bag: BagState)

  function Marshal(b: BagState): Token {
    if b.current.None? then NoToken else Encoded(b)
  }

  function Unmarshal(t: Token): Result<BagState, ()> {
    match t
    case NoToken => Ok(BagState([], None))
    case Corrupt => Err(())
    case Encoded(b) => Ok(b)
  }

  class Bag {
    var states: seq<PageState>
    var current: Option<PageState>

    function View(): BagState
      reads this
    {
      BagState(states, current)
    }

    /** The bag a List call starts from. */
    constructor (b: BagState)
      ensures View() == b
    {
      states, current := b.states, b.current;
    }

    method Push(s: PageState)
      modifies this
      ensures View() == old(View()).Push(s)
    {
      if current.None? {
        current := Some(s);
      } else {
        states := states + [current.value];
        current := Some(s);
      }
    }

    method Pop() returns (top: Option<PageState>)
      modifies this
      ensures View() == old(View()).Pop() && top == old(current)
    {
      top := current;
      if top.Some? {
        if |states| > 0 {
          current := Some(states[|states| - 1]);
          states := states[..|states| - 1];
        } else {
          current := None;
        }
      }
    }

    /** Replaces the current state's token: a pop, then a push of the copy. */
    method Next(token: string) returns (ok: bool)
      modifies this
      ensures ok == old(current).Some?
      ensures ok && token != "" ==>
                View() == old(View()).(current := Some(old(current).value.(token := token)))
      ensures ok && token == "" ==> View() == old(View()).Pop()
      ensures !ok ==> View() == old(View())
    {
      var top := Pop();
      if top.None? {
        return false;
      }
      if token != "" {
        Push(top.value.(token := token));
      }
      return true;
    }
  }
}
