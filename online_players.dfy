/** utils/onlinePlayers.js: the module-level count of online players. */
module OnlinePlayers {

  class OnlinePlayers {
    var onlinePlayers: int

    /** The count is never negative. */
    ghost predicate Valid()
      reads this
    {
      onlinePlayers >= 0
    }

    /** `let onlinePlayers = 0`. */
    constructor ()
      ensures Valid() && onlinePlayers == 0
    {
      onlinePlayers := 0;
    }

    /** `increment`: adds exactly one. */
    method Increment()
      requires Valid()
      modifies this
      ensures Valid()
      ensures onlinePlayers == old(onlinePlayers) + 1
    {
      onlinePlayers := onlinePlayers + 1;
    }

    /** `decrement`: subtracts one while positive and is a no-op at zero. */
    method Decrement()
      requires Valid()
      modifies this
      ensures Valid()
      ensures old(onlinePlayers) > 0 ==> onlinePlayers == old(onlinePlayers) - 1
      ensures old(onlinePlayers) == 0 ==> onlinePlayers == 0
    {
      if onlinePlayers > 0 {
        onlinePlayers := onlinePlayers - 1;
      }
    }

    /** `getOnlinePlayers`: reads the count without changing it. */
    method GetOnlinePlayers() returns (n: int)
      requires Valid()
      ensures n == onlinePlayers && n >= 0
    {
      n := onlinePlayers;
    }
  }
}
