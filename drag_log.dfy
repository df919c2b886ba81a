/**
 * The events an MRange widget triggers, in the order it triggers them, and the rule they
 * follow: a `dragstart` opens a drag, `dragmove`s happen only inside one, and a `dragend`
 * closes it.
 */
module DragLog {
  import opened Wrappers
  import opened RangeConfig

  datatype Kind = Started | Moved | Ended

  /** A triggered event with the value it carries. */
  datatype Event = Event(kind: Kind, value: Values)

  /** One event read in a state where a drag is open or not: the new state, or None if it cannot happen. */
  function Step(open: bool, kind: Kind): Option<bool> {
    match kind
    case Started => if open then None else Some(true)
    case Moved => if open then Some(true) else None
    case Ended => if open then Some(false) else None
  }

  /** Reading a log from the start with no drag open: whether a drag is open at its end, or None. */
  function Replay(log: seq<Event>): Option<bool> {
    if log == [] then Some(false)
    else
      match Replay(log[..|log| - 1])
      case None => None
      case Some(open) => Step(open, log[|log| - 1].kind)
  }

  predicate WellFormed(log: seq<Event>) { Replay(log).Some? }

  predicate IsOpen(log: seq<Event>) { Replay(log) == Some(true) }

  /** The number of events of one kind. */
  function Count(log: seq<Event>, kind: Kind): nat {
    if log == [] then 0
    else Count(log[..|log| - 1], kind) + (if log[|log| - 1].kind == kind then 1 else 0)
  }

  /** Appending one event steps the state of the log. */
  lemma ReplaySnoc(log: seq<Event>, e: Event)
    ensures Replay(log + [e]) == if Replay(log).None? then None else Step(Replay(log).value, e.kind)
  {
    assert (log + [e])[..|log|] == log;
  }

  /** A `dragstart` on an idle widget opens a drag. */
  lemma StartOpens(log: seq<Event>, v: Values)
    requires WellFormed(log) && !IsOpen(log)
    ensures IsOpen(log + [Event(Started, v)])
  {
    ReplaySnoc(log, Event(Started, v));
  }

  /** A second `dragstart` inside an open drag breaks the rule. */
  lemma StartWhileOpen(log: seq<Event>, v: Values)
    requires IsOpen(log)
    ensures !WellFormed(log + [Event(Started, v)])
  {
    ReplaySnoc(log, Event(Started, v));
  }

  /** A `dragmove` inside an open drag keeps it open. */
  lemma MoveKeepsOpen(log: seq<Event>, v: Values)
    requires IsOpen(log)
    ensures IsOpen(log + [Event(Moved, v)])
  {
    ReplaySnoc(log, Event(Moved, v));
  }

  /** A `dragend` closes an open drag. */
  lemma EndCloses(log: seq<Event>, v: Values)
    requires IsOpen(log)
    ensures WellFormed(log + [Event(Ended, v)]) && !IsOpen(log + [Event(Ended, v)])
  {
    ReplaySnoc(log, Event(Ended, v));
  }

  /** Moves and ends outside a drag break the rule. */
  lemma IdleRejects(log: seq<Event>, v: Values)
    requires WellFormed(log) && !IsOpen(log)
    ensures !WellFormed(log + [Event(Moved, v)]) && !WellFormed(log + [Event(Ended, v)])
  {
    ReplaySnoc(log, Event(Moved, v));
    ReplaySnoc(log, Event(Ended, v));
  }

  /** Every prefix of a well-formed log is well formed. */
  lemma {:induction false} PrefixWellFormed(log: seq<Event>, n: nat)
    requires n <= |log| && WellFormed(log)
    ensures WellFormed(log[..n])
    decreases |log| - n
  {
    if n == |log| {
      assert log[..n] == log;
    } else {
      assert WellFormed(log[..|log| - 1]);
      PrefixWellFormed(log[..|log| - 1], n);
      assert log[..|log| - 1][..n] == log[..n];
    }
  }

  /**
   * In a well-formed log the starts and ends balance: there are as many starts as ends,
   * plus one while a drag is open.
   */
  lemma {:induction false} Balanced(log: seq<Event>)
    requires WellFormed(log)
    ensures Count(log, Started) == Count(log, Ended) + (if IsOpen(log) then 1 else 0)
  {
    if log != [] {
      Balanced(log[..|log| - 1]);
    }
  }

  /**
   * A drag open at the end of a log was opened by a start that no end has followed.
   */
  lemma {:induction false} OpenedByStart(log: seq<Event>)
    requires IsOpen(log)
    ensures exists j :: 0 <= j < |log| && log[j].kind == Started &&
                        (forall m :: j < m < |log| ==> log[m].kind != Ended)
  {
    var init := log[..|log| - 1];
    if log[|log| - 1].kind != Started {
      assert IsOpen(init);
      OpenedByStart(init);
      var j :| 0 <= j < |init| && init[j].kind == Started && forall m :: j < m < |init| ==> init[m].kind != Ended;
      assert log[j].kind == Started;
      forall m | j < m < |log| ensures log[m].kind != Ended {
        if m < |init| { assert log[m] == init[m]; }
      }
    }
  }

  /**
   * Every move and every end of a well-formed log happens inside a drag: a start comes
   * before it and no end comes between them.
   */
  lemma {:induction false} InsideDrag(log: seq<Event>, i: nat)
    requires WellFormed(log) && i < |log| && log[i].kind != Started
    ensures exists j :: 0 <= j < i && log[j].kind == Started &&
                        (forall m :: j < m < i ==> log[m].kind != Ended)
  {
    PrefixWellFormed(log, i + 1);
    var pre := log[..i + 1];
    assert pre[..i] == log[..i];
    assert IsOpen(log[..i]);
    OpenedByStart(log[..i]);
    var j :| 0 <= j < i && log[..i][j].kind == Started && forall m :: j < m < i ==> log[..i][m].kind != Ended;
    assert log[j].kind == Started;
    forall m | j < m < i ensures log[m].kind != Ended {
      assert log[m] == log[..i][m];
    }
  }
}
