/** The lock that keeps a volume from being published while it waits to be resized, and the law of its history. */
module Locker {

  class SimpleLock {
    var storage: map<string, bool>

    constructor ()
      ensures storage == map[]
    {
      storage := map[];
    }

    method Put(key: string)
      modifies this
      ensures storage == old(storage)[key := true]
    {
      storage := storage[key := true];
    }

    /** Reading the lock takes it. */
    method IsLocked(key: string) returns (locked: bool)
      modifies this
      ensures locked == (key in old(storage))
      ensures storage == old(storage) - {key}
    {
      if key in storage {
        storage := storage - {key};
        return true;
      }
      return false;
    }

    method Pop(key: string) returns (held: bool)
      modifies this
      ensures held == (key in old(storage))
      ensures storage == old(storage) - {key}
    {
      if key in storage {
        storage := storage - {key};
        return true;
      }
      return false;
    }
  }

  /** What the handlers do to the lock of a volume: an expand that finds the disk attached sets it; a publish reads it
      and is rejected or passes; a successful resize clears it. */
  datatype Event =
    | ExpandAttached(vol: string)
    | PublishRejected(vol: string)
    | PublishPassed(vol: string)
    | Resized(vol: string)

  function Apply(locked: set<string>, e: Event): set<string> {
    if e.ExpandAttached? then locked + {e.vol} else locked - {e.vol}
  }

  /** The volumes locked after a history that starts with none. */
  function LockedAfter(log: seq<Event>): set<string> {
    if log == [] then {} else Apply(LockedAfter(log[..|log| - 1]), log[|log| - 1])
  }

  /** The answer a publish gets is the state of the lock. */
  predicate Answers(locked: set<string>, e: Event) {
    (e.PublishRejected? ==> e.vol in locked) && (e.PublishPassed? ==> e.vol !in locked)
  }

  ghost predicate Legal(log: seq<Event>) {
    forall i :: 0 <= i < |log| ==> Answers(LockedAfter(log[..i]), log[i])
  }

  lemma LockedOneMore(log: seq<Event>, e: Event)
    ensures LockedAfter(log + [e]) == Apply(LockedAfter(log), e)
  {
    assert (log + [e])[..|log|] == log;
  }

  lemma LegalOneMore(log: seq<Event>, e: Event)
    requires Legal(log) && Answers(LockedAfter(log), e)
    ensures Legal(log + [e]) && LockedAfter(log + [e]) == Apply(LockedAfter(log), e)
  {
    var more := log + [e];
    assert more[..|more| - 1] == log;
    forall i | 0 <= i < |more|
      ensures Answers(LockedAfter(more[..i]), more[i])
    {
      assert more[..i] == log[..i];
      if i == |log| { assert log[..i] == log; }
    }
  }

  lemma LegalPrefix(log: seq<Event>, n: nat)
    requires Legal(log) && n <= |log|
    ensures Legal(log[..n])
  {
    assert forall i :: 0 <= i < n ==> log[..n][..i] == log[..i];
  }

  /** Event i of the log is the last about v. */
  ghost predicate LastAbout(log: seq<Event>, v: string, i: int) {
    0 <= i < |log| && log[i].vol == v && forall j :: i < j < |log| ==> log[j].vol != v
  }

  lemma OneLast(log: seq<Event>, v: string, i: int, j: int)
    requires LastAbout(log, v, i) && LastAbout(log, v, j)
    ensures i == j
  {
  }

  /** A volume is locked exactly when the last event about it set the lock. */
  lemma {:induction false} LockedIffLastSet(log: seq<Event>, v: string)
    ensures v in LockedAfter(log) <==> exists i :: LastAbout(log, v, i) && log[i].ExpandAttached?
  {
    if log != [] {
      var n := |log| - 1;
      var front := log[..n];
      LockedIffLastSet(front, v);
      if log[n].vol == v {
        assert LastAbout(log, v, n);
        forall i | LastAbout(log, v, i)
          ensures i == n
        {
          OneLast(log, v, i, n);
        }
      } else {
        forall i
          ensures LastAbout(log, v, i) <==> LastAbout(front, v, i)
        {
          if LastAbout(front, v, i) {
            assert forall j :: i < j < |log| ==> log[j].vol != v by {
              assert forall j :: i < j < n ==> log[j] == front[j];
            }
          }
          if LastAbout(log, v, i) {
            assert forall j :: i < j < n ==> front[j] == log[j];
          }
        }
        forall i | LastAbout(log, v, i)
          ensures log[i] == front[i]
        {
          assert LastAbout(front, v, i);
        }
      }
    }
  }

  function Count(log: seq<Event>, e: Event): nat {
    if log == [] then 0 else Count(log[..|log| - 1], e) + if log[|log| - 1] == e then 1 else 0
  }

  /** Each rejected publish of a volume is paid for by an expand that found it attached, and a lock still held is
      paid for by one more. */
  lemma {:induction false} RejectionsBounded(log: seq<Event>, v: string)
    requires Legal(log)
    ensures Count(log, PublishRejected(v)) + (if v in LockedAfter(log) then 1 else 0) <= Count(log, ExpandAttached(v))
  {
    if log != [] {
      var n := |log| - 1;
      LegalPrefix(log, n);
      RejectionsBounded(log[..n], v);
      assert Answers(LockedAfter(log[..n]), log[n]);
    }
  }

  /** Between two rejections of a volume an expand found it attached. */
  lemma RejectionNeedsSet(log: seq<Event>, v: string, i: nat, j: nat)
    requires Legal(log) && i < j < |log|
    requires log[i] == PublishRejected(v) && log[j] == PublishRejected(v)
    ensures exists k :: i < k < j && log[k] == ExpandAttached(v)
  {
    var before := log[..j];
    assert Answers(LockedAfter(before), log[j]);
    LockedIffLastSet(before, v);
    var k :| LastAbout(before, v, k) && before[k].ExpandAttached?;
    assert before[i] == log[i];
    assert i < k < j && log[k] == ExpandAttached(v);
  }
}
