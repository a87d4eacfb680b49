/** The dead-letter list: one Redis list, two separate commands (`lpush`, then `ltrim 0 9999`) per writer, and any
    number of writers interleaved. A writer's trim may fail and never happen. */
module DeadLetters {
  import opened Numbers

  const CAPACITY: nat := 10000

  datatype Command<T> = Push(item: T) | Trim

  function Trimmed<T>(list: seq<T>): seq<T> {
    if |list| <= CAPACITY then list else list[..CAPACITY]
  }

  function Execute<T>(list: seq<T>, cmd: Command<T>): seq<T> {
    match cmd
    case Push(x) => [x] + list
    case Trim => Trimmed(list)
  }

  function Contents<T>(cmds: seq<Command<T>>): seq<T> {
    if cmds == [] then [] else Execute(Contents(cmds[..|cmds| - 1]), cmds[|cmds| - 1])
  }

  /** Everything ever pushed, newest first. */
  function Pushed<T>(cmds: seq<Command<T>>): seq<T> {
    if cmds == [] then []
    else
      var before := Pushed(cmds[..|cmds| - 1]);
      match cmds[|cmds| - 1]
      case Push(x) => [x] + before
      case Trim => before
  }

  /** How many of the newest pushes the list should hold: at the last trim at most the capacity, and one more for
      each push since. */
  function Kept<T>(cmds: seq<Command<T>>): nat {
    if cmds == [] then 0
    else
      var before := Kept(cmds[..|cmds| - 1]);
      if cmds[|cmds| - 1].Push? then before + 1 else Min(before, CAPACITY)
  }

  /** Under every interleaving the list is exactly the newest `Kept` pushes, newest first. */
  lemma {:induction false} ListIsNewestPushes<T>(cmds: seq<Command<T>>)
    ensures Kept(cmds) <= |Pushed(cmds)|
    ensures Contents(cmds) == Pushed(cmds)[..Kept(cmds)]
    ensures Min(CAPACITY, |Pushed(cmds)|) <= Kept(cmds)
  {
    if cmds != [] {
      var init, last := cmds[..|cmds| - 1], cmds[|cmds| - 1];
      ListIsNewestPushes(init);
      if last.Push? {
        assert ([last.item] + Pushed(init))[..Kept(init) + 1] == [last.item] + Pushed(init)[..Kept(init)];
      }
    }
  }

  /** Nothing among the newest 10000 is ever lost, and right after any trim nothing else is left. */
  lemma TrimBounds<T>(cmds: seq<Command<T>>)
    ensures Contents(cmds) <= Pushed(cmds)
    ensures |Contents(cmds)| >= if |Pushed(cmds)| < 10000 then |Pushed(cmds)| else 10000
    ensures Contents(cmds + [Trim])
         == if |Pushed(cmds)| < 10000 then Pushed(cmds) else Pushed(cmds)[..10000]
  {
  }

  /** Between trims the list exceeds its capacity by at most the pushes whose trim has not happened yet. */
  lemma {:induction false} OverflowBound<T>(cmds: seq<Command<T>>, since: seq<Command<T>>)
    requires forall c <- since :: c.Push?
    ensures |Contents(cmds + [Trim] + since)| == Min(10000, |Pushed(cmds)|) + |since|
    ensures |Contents(cmds + [Trim] + since)| <= 10000 + |since|
  {
    var all := cmds + [Trim] + since;
    if since == [] {
      assert all == cmds + [Trim];
      TrimBounds(cmds);
    } else {
      var init := since[..|since| - 1];
      OverflowBound(cmds, init);
      assert all[..|all| - 1] == cmds + [Trim] + init;
    }
  }
}
