/**
  The futex wait table (`FUTEX_WAIT_TASK` in modules/axprocess/src/futex.rs):
  a map from a user virtual address to the ordered list of tasks waiting on
  it, each with the futex value it saw, and `clear_wait`, which purges the
  waiters of an exiting task or process.

  A waiter is recorded by its task id; the process a task belongs to is read
  when the table is cleared, so it is passed in as `processOf`.
 */
module Futex {

  /** A queued waiter: the waiting task's id and the futex value it stored. */
  datatype Waiter = Waiter(tid: nat, value: nat)

  /** `FutexRobustList`: head and length of a task's robust list, stored as given. */
  datatype FutexRobustList = FutexRobustList(head: nat, len: nat)

  /**
    Whether `retain` keeps a waiter: with `leader` the id is a process id and
    every task of that process goes; otherwise only the task with that id.
   */
  predicate Keeps(w: Waiter, id: nat, leader: bool, processOf: nat -> nat)
  {
    if leader then processOf(w.tid) != id else w.tid != id
  }

  /** `VecDeque::retain` with `Keeps`: the kept waiters, in their original order. */
  function Retained(s: seq<Waiter>, id: nat, leader: bool, processOf: nat -> nat): seq<Waiter>
    decreases |s|
  {
    if s == [] then []
    else
      var last := s[|s| - 1];
      Retained(s[..|s| - 1], id, leader, processOf) + (if Keeps(last, id, leader, processOf) then [last] else [])
  }

  /** A waiter survives exactly when it was there and is kept. */
  lemma {:induction false} RetainedMembers(s: seq<Waiter>, id: nat, leader: bool, processOf: nat -> nat, w: Waiter)
    ensures w in Retained(s, id, leader, processOf) <==> w in s && Keeps(w, id, leader, processOf)
    decreases |s|
  {
    if s != [] {
      RetainedMembers(s[..|s| - 1], id, leader, processOf, w);
      assert s == s[..|s| - 1] + [s[|s| - 1]];
    }
  }

  /** Retaining distributes over concatenation, so the relative order of the kept waiters is preserved. */
  lemma {:induction false} RetainedConcat(a: seq<Waiter>, b: seq<Waiter>, id: nat, leader: bool, processOf: nat -> nat)
    ensures Retained(a + b, id, leader, processOf) == Retained(a, id, leader, processOf) + Retained(b, id, leader, processOf)
    decreases |b|
  {
    if b == [] {
      assert a + b == a;
    } else {
      var b' := b[..|b| - 1];
      assert (a + b)[..|a + b| - 1] == a + b';
      RetainedConcat(a, b', id, leader, processOf);
    }
  }

  /** A list in which every waiter is kept is left exactly as it was. */
  lemma {:induction false} RetainedAllKept(s: seq<Waiter>, id: nat, leader: bool, processOf: nat -> nat)
    requires forall i :: 0 <= i < |s| ==> Keeps(s[i], id, leader, processOf)
    ensures Retained(s, id, leader, processOf) == s
    decreases |s|
  {
    if s != [] {
      RetainedAllKept(s[..|s| - 1], id, leader, processOf);
      assert s == s[..|s| - 1] + [s[|s| - 1]];
    }
  }

  /** Retaining twice with the same predicate is retaining once. */
  lemma RetainedIdempotent(s: seq<Waiter>, id: nat, leader: bool, processOf: nat -> nat)
    ensures Retained(Retained(s, id, leader, processOf), id, leader, processOf) == Retained(s, id, leader, processOf)
  {
    var r := Retained(s, id, leader, processOf);
    forall i | 0 <= i < |r|
      ensures Keeps(r[i], id, leader, processOf)
    {
      RetainedMembers(s, id, leader, processOf, r[i]);
    }
    RetainedAllKept(r, id, leader, processOf);
  }

  /** The table after `clear_wait(id, leader)`: each list retained, then the empty lists dropped. */
  function ClearWaitSpec(m: map<nat, seq<Waiter>>, id: nat, leader: bool, processOf: nat -> nat): (r: map<nat, seq<Waiter>>)
    ensures r.Keys <= m.Keys
    ensures forall a :: a in r ==> r[a] != [] && r[a] == Retained(m[a], id, leader, processOf)
    ensures forall a :: a in m && Retained(m[a], id, leader, processOf) != [] ==> a in r
  {
    map a | a in m && Retained(m[a], id, leader, processOf) != [] :: Retained(m[a], id, leader, processOf)
  }

  /**
    After `clear_wait` no waiter matches the id (every task of the process
    when `leader`, the one task otherwise), no address maps to an empty list,
    and every waiter left was already queued at the same address.
   */
  lemma ClearWaitPurges(m: map<nat, seq<Waiter>>, id: nat, leader: bool, processOf: nat -> nat)
    ensures forall a: nat, w: Waiter :: a in ClearWaitSpec(m, id, leader, processOf) && w in ClearWaitSpec(m, id, leader, processOf)[a] ==>
        Keeps(w, id, leader, processOf) && w in m[a]
    ensures forall a :: a in ClearWaitSpec(m, id, leader, processOf) ==> ClearWaitSpec(m, id, leader, processOf)[a] != []
  {
    var r := ClearWaitSpec(m, id, leader, processOf);
    forall a, w: Waiter | a in r && w in r[a]
      ensures Keeps(w, id, leader, processOf) && w in m[a]
    {
      RetainedMembers(m[a], id, leader, processOf, w);
    }
  }

  /** A waiter that does not match stays at its address. */
  lemma ClearWaitKeepsOthers(m: map<nat, seq<Waiter>>, id: nat, leader: bool, processOf: nat -> nat, a: nat, w: Waiter)
    requires a in m && w in m[a] && Keeps(w, id, leader, processOf)
    ensures a in ClearWaitSpec(m, id, leader, processOf) && w in ClearWaitSpec(m, id, leader, processOf)[a]
  {
    RetainedMembers(m[a], id, leader, processOf, w);
  }

  /** `clear_wait` applied twice with the same arguments equals applying it once. */
  lemma ClearWaitIdempotent(m: map<nat, seq<Waiter>>, id: nat, leader: bool, processOf: nat -> nat)
    ensures ClearWaitSpec(ClearWaitSpec(m, id, leader, processOf), id, leader, processOf) == ClearWaitSpec(m, id, leader, processOf)
  {
    var once := ClearWaitSpec(m, id, leader, processOf);
    var twice := ClearWaitSpec(once, id, leader, processOf);
    forall a | a in once
      ensures Retained(once[a], id, leader, processOf) == once[a]
    {
      RetainedIdempotent(m[a], id, leader, processOf);
    }
    assert twice.Keys == once.Keys;
  }

  /** `retain` on one waiter list, one element at a time. */
  method RetainWaiters(tasks: seq<Waiter>, id: nat, leader: bool, processOf: nat -> nat) returns (kept: seq<Waiter>)
    ensures kept == Retained(tasks, id, leader, processOf)
  {
    kept := [];
    var i := 0;
    while i < |tasks|
      invariant 0 <= i <= |tasks|
      invariant kept == Retained(tasks[..i], id, leader, processOf)
    {
      assert tasks[..i + 1][..i] == tasks[..i];
      if Keeps(tasks[i], id, leader, processOf) {
        kept := kept + [tasks[i]];
      }
      i := i + 1;
    }
    assert tasks[..|tasks|] == tasks;
  }

  /** The global futex wait table. */
  class FutexTable {
    var waits: map<nat, seq<Waiter>>

    constructor ()
      ensures waits == map[]
    {
      waits := map[];
    }

    /** `clear_wait`: retain the non-matching waiters of every list, then drop the empty lists. */
    method ClearWait(id: nat, leader: bool, processOf: nat -> nat)
      modifies this`waits
      ensures waits == ClearWaitSpec(old(waits), id, leader, processOf)
    {
      waits := ClearWaitMap(waits, id, leader, processOf);
    }
  }

  /** The loop of `clear_wait` over the addresses of a wait table, on values. */
  method ClearWaitMap(m: map<nat, seq<Waiter>>, id: nat, leader: bool, processOf: nat -> nat) returns (r: map<nat, seq<Waiter>>)
    ensures r == ClearWaitSpec(m, id, leader, processOf)
  {
    r := map[];
    var pending := m.Keys;
    while pending != {}
      invariant pending <= m.Keys
      invariant forall a :: a in r ==> a in m && a !in pending && r[a] == Retained(m[a], id, leader, processOf) && r[a] != []
      invariant forall a :: a in m && a !in pending && Retained(m[a], id, leader, processOf) != [] ==> a in r
      decreases pending
    {
      var a :| a in pending;
      var kept := RetainWaiters(m[a], id, leader, processOf);
      if kept != [] {
        r := r[a := kept];
      }
      pending := pending - {a};
    }
    assert r.Keys == ClearWaitSpec(m, id, leader, processOf).Keys;
  }
}
