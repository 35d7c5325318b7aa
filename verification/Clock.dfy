/** The wall clock as the waiting loops see it: a sleep takes at least as long as asked. */
module Clock {

  class Clock {
    var now: int

    /** How long all sleeps so far were asked to be, taken together. */
    ghost var asked: nat

    constructor (start: int)
      ensures now == start && asked == 0
    {
      now, asked := start, 0;
    }

    method Sleep(seconds: nat)
      modifies this
      ensures now >= old(now) + seconds && asked == old(asked) + seconds
    {
      var longer :| longer >= 0;
      now, asked := now + seconds + longer, asked + seconds;
    }
  }
}
