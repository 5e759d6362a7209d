/** internal/docker/cache_lock.go: a mutex per reference, whose entry exists only while somebody is registered.
    Any number of acquirers, cancellations and releases; each critical section or channel operation is one step. */
module CacheLocks {

  type Ref = nat

  /** held is the one-slot channel. */
  datatype Entry = Entry(held: bool, refs: int)

  /** A caller between its registration and its drop, with the pointer to the entry it registered at. */
  datatype Actor =
    | Registered(ref: Ref, entry: nat)   // at the select
    | Holding(ref: Ref, entry: nat)      // the send went through; the lock is granted unless the context is done
    | Owning(ref: Ref, entry: nat)       // acquire has returned a release function

  /** entries maps a reference to a pointer, heap is what the pointers point to. */
  datatype Locks = Locks(entries: map<Ref, nat>, heap: map<nat, Entry>, actors: map<nat, Actor>, supply: nat)

  datatype Step =
    | Register(ref: Ref)
    | Send(actor: nat)      // entry.held <- struct{}{}; blocks while the slot is full
    | Cancel(actor: nat)    // the context ends at the select
    | Grant(actor: nat)     // the context is still live after the send
    | Refuse(actor: nat)    // the context ended while the send went through
    | Release(actor: nat)

  const EMPTY := Locks(map[], map[], map[], 0)

  predicate Is(l: Locks, a: nat, registered: bool, holding: bool) {
    && a in l.actors && l.actors[a].entry in l.heap
    && l.actors[a].Registered? == registered && l.actors[a].Holding? == holding
  }

  function Registering(l: Locks, ref: Ref): Locks {
    var made := Locks(l.entries[ref := l.supply], l.heap[l.supply := Entry(false, 0)], l.actors, l.supply + 1);
    var l1 := if ref in l.entries then l else made;
    var p := l1.entries[ref];
    if p !in l1.heap then l1
    else l1.(heap := l1.heap[p := l1.heap[p].(refs := l1.heap[p].refs + 1)],
             actors := l1.actors[l1.supply := Registered(ref, p)], supply := l1.supply + 1)
  }

  /** drop: empty the slot if it was ours, and forget the reference with its last user. */
  function Dropped(l: Locks, a: nat): Locks
    requires a in l.actors && l.actors[a].entry in l.heap
  {
    var ref, p := l.actors[a].ref, l.actors[a].entry;
    var entry := Entry(l.heap[p].held && l.actors[a].Registered?, l.heap[p].refs - 1);
    Locks(if entry.refs == 0 then l.entries - {ref} else l.entries, l.heap[p := entry], l.actors - {a}, l.supply)
  }

  function Sent(l: Locks, a: nat): Locks
    requires a in l.actors && l.actors[a].entry in l.heap
  {
    var ref, p := l.actors[a].ref, l.actors[a].entry;
    l.(heap := l.heap[p := l.heap[p].(held := true)], actors := l.actors[a := Holding(ref, p)])
  }

  function Granted(l: Locks, a: nat): Locks
    requires a in l.actors
  {
    l.(actors := l.actors[a := Owning(l.actors[a].ref, l.actors[a].entry)])
  }

  function Next(l: Locks, step: Step): Locks {
    match step
    case Register(ref) => Registering(l, ref)
    case Send(a) => if Is(l, a, true, false) && !l.heap[l.actors[a].entry].held then Sent(l, a) else l
    case Cancel(a) => if Is(l, a, true, false) then Dropped(l, a) else l
    case Grant(a) => if Is(l, a, false, true) then Granted(l, a) else l
    case Refuse(a) => if Is(l, a, false, true) then Dropped(l, a) else l
    case Release(a) => if Is(l, a, false, false) then Dropped(l, a) else l
  }

  /******* The invariant *******/

  /** Owner plus registered waiters of a reference. */
  function Users(l: Locks, ref: Ref): set<nat> {
    set a | a in l.actors && l.actors[a].ref == ref
  }

  predicate HasSlot(p: Actor) {
    p.Holding? || p.Owning?
  }

  /** Nobody holds a pointer to an entry that was forgotten or replaced. */
  ghost predicate Live(l: Locks) {
    && (forall a <- l.actors :: a < l.supply && l.actors[a].ref in l.entries && l.entries[l.actors[a].ref] == l.actors[a].entry)
    && (forall r <- l.entries :: l.entries[r] in l.heap)
    && (forall p <- l.heap :: p < l.supply)
    && (forall q <- l.entries, r <- l.entries :: l.entries[q] == l.entries[r] ==> q == r)
  }

  ghost predicate Counted(l: Locks) {
    forall r <- l.entries :: l.entries[r] in l.heap ==> l.heap[l.entries[r]].refs == |Users(l, r)| > 0
  }

  ghost predicate Exclusive(l: Locks) {
    && (forall a <- l.actors :: l.actors[a].entry in l.heap && HasSlot(l.actors[a]) ==> l.heap[l.actors[a].entry].held)
    && (forall r <- l.entries :: l.entries[r] in l.heap && l.heap[l.entries[r]].held ==>
          exists a :: a in l.actors && l.actors[a].ref == r && HasSlot(l.actors[a]))
    && (forall a <- l.actors, b <- l.actors ::
          l.actors[a].ref == l.actors[b].ref && HasSlot(l.actors[a]) && HasSlot(l.actors[b]) ==> a == b)
  }

  ghost predicate Inv(l: Locks) {
    Live(l) && Counted(l) && Exclusive(l)
  }

  lemma UsersSplit(l: Locks, ref: Ref, a: nat)
    requires a in l.actors
    ensures |Users(l, ref)| == |Users(l.(actors := l.actors - {a}), ref)| + if l.actors[a].ref == ref then 1 else 0
  {
    var rest := Users(l.(actors := l.actors - {a}), ref);
    assert Users(l, ref) == if l.actors[a].ref == ref then rest + {a} else rest;
  }

  lemma NobodyElse(l: Locks, ref: Ref, a: nat)
    requires a in l.actors && l.actors[a].ref == ref && |Users(l, ref)| == 1
    ensures forall b <- l.actors :: l.actors[b].ref == ref ==> b == a
  {
    forall b | b in l.actors && l.actors[b].ref == ref ensures b == a {
      assert {a, b} <= Users(l, ref);
      if b != a {
        Subset({a, b}, Users(l, ref));
      }
    }
  }

  lemma Subset(s: set<nat>, t: set<nat>)
    requires s <= t
    ensures |s| <= |t|
  {
    assert t == s + (t - s);
  }

  /** The same callers use the same references. */
  ghost predicate SameUses(l: Locks, l': Locks) {
    && l'.actors.Keys == l.actors.Keys
    && forall a <- l.actors :: l'.actors[a].ref == l.actors[a].ref && l'.actors[a].entry == l.actors[a].entry
  }

  lemma SameUsers(l: Locks, l': Locks, ref: Ref)
    requires l'.actors.Keys == l.actors.Keys && forall a <- l.actors :: l'.actors[a].ref == l.actors[a].ref
    ensures Users(l', ref) == Users(l, ref)
  {
  }

  lemma RegisterLive(l: Locks, ref: Ref)
    requires Live(l)
    ensures Live(Registering(l, ref))
  {
  }

  lemma RegisterCounted(l: Locks, ref: Ref)
    requires Live(l) && Counted(l)
    ensures Counted(Registering(l, ref))
  {
    var l' := Registering(l, ref);
    var a := l'.supply - 1;
    assert a !in l.actors && l'.actors - {a} == l.actors;
    assert ref in l.entries ==> l'.heap[l'.entries[ref]].refs == l.heap[l.entries[ref]].refs + 1;
    assert ref !in l.entries ==> l'.heap[l'.entries[ref]].refs == 1;
    assert forall r <- l.entries :: r != ref ==> l'.entries[r] == l.entries[r] && l'.heap[l.entries[r]] == l.heap[l.entries[r]];
    if ref !in l.entries {
      assert Users(l, ref) == {};
    }
    hide Live;
    forall r | r in l'.entries && l'.entries[r] in l'.heap ensures l'.heap[l'.entries[r]].refs == |Users(l', r)| > 0 {
      UsersSplit(l', r, a);
      SameUsers(l, l'.(actors := l'.actors - {a}), r);
    }
  }

  lemma RegisterExclusive(l: Locks, ref: Ref)
    requires Live(l) && Exclusive(l)
    ensures Exclusive(Registering(l, ref))
  {
    RegisteringAdds(l, ref);
    assert forall a <- l.actors :: l.actors[a].entry in l.heap;
    hide Registering, Live;
    OneMoreWaits(l, Registering(l, ref), if ref in l.entries then l.supply else l.supply + 1);
  }

  /** One more actor without the slot. */
  lemma OneMoreWaits(l: Locks, l': Locks, a: nat)
    requires Exclusive(l) && (forall b <- l.actors :: l.actors[b].entry in l.heap)
    requires a !in l.actors && a in l'.actors && l'.actors[a].Registered? && l'.actors - {a} == l.actors
    requires forall r <- l'.entries :: (r in l.entries && l'.entries[r] == l.entries[r] && l.entries[r] in l.heap) || !(l'.entries[r] in l'.heap && l'.heap[l'.entries[r]].held)
    requires forall p <- l.heap :: p in l'.heap && l'.heap[p].held == l.heap[p].held
    ensures Exclusive(l')
  {
    assert forall b | b in l'.actors && HasSlot(l'.actors[b]) :: b in l.actors && l'.actors[b] == l.actors[b] by {
      assert forall b | b in l'.actors && b != a :: b in l'.actors - {a};
    }
    assert forall b <- l.actors :: b in l'.actors && l'.actors[b] == l.actors[b] by {
      assert forall b <- l.actors :: b in l'.actors - {a};
    }
    forall r | r in l'.entries && l'.entries[r] in l'.heap && l'.heap[l'.entries[r]].held
      ensures exists b :: b in l'.actors && l'.actors[b].ref == r && HasSlot(l'.actors[b])
    {
      var b :| b in l.actors && l.actors[b].ref == r && HasSlot(l.actors[b]);
      assert b in l'.actors && l'.actors[b] == l.actors[b];
    }
  }

  /** Registering adds one waiting actor, and perhaps one free entry; no slot changes. */
  lemma RegisteringAdds(l: Locks, ref: Ref)
    requires Live(l)
    ensures var l', a := Registering(l, ref), if ref in l.entries then l.supply else l.supply + 1;
      && a !in l.actors && ref in l'.entries && l'.actors == l.actors[a := Registered(ref, l'.entries[ref])]
      && l'.actors - {a} == l.actors
      && (forall r <- l'.entries :: (r in l.entries && l'.entries[r] == l.entries[r] && l.entries[r] in l.heap) || !l'.heap[l'.entries[r]].held)
      && (forall p <- l.heap :: p in l'.heap && l'.heap[p].held == l.heap[p].held)
      && (forall r <- l'.entries :: l'.entries[r] in l'.heap)
  {
  }

  lemma RegisterKeeps(l: Locks, ref: Ref)
    requires Inv(l)
    ensures Inv(Registering(l, ref))
  {
    RegisterLive(l, ref);
    RegisterCounted(l, ref);
    RegisterExclusive(l, ref);
    hide Live, Counted, Exclusive, Registering;
  }

  /** The last user of an entry drops it exactly when refs reaches zero. */
  lemma LastUser(l: Locks, a: nat)
    requires Live(l) && Counted(l) && a in l.actors
    ensures var ref := l.actors[a].ref;
      ref !in Dropped(l, a).entries <==> forall b <- l.actors :: l.actors[b].ref == ref ==> b == a
  {
    var ref := l.actors[a].ref;
    assert l.heap[l.actors[a].entry].refs == |Users(l, ref)|;
    hide Live, Counted;
    if |Users(l, ref)| == 1 {
      NobodyElse(l, ref, a);
    }
    if forall b <- l.actors :: l.actors[b].ref == ref ==> b == a {
      OnlyUser(l, ref, a);
    }
  }

  lemma OnlyUser(l: Locks, ref: Ref, a: nat)
    requires a in l.actors && l.actors[a].ref == ref && forall b <- l.actors :: l.actors[b].ref == ref ==> b == a
    ensures |Users(l, ref)| == 1
  {
    assert Users(l, ref) == {a};
  }

  /** No pointer dangles. */
  lemma Pointers(l: Locks)
    requires Inv(l)
    ensures forall r <- l.entries :: l.entries[r] in l.heap
    ensures forall a <- l.actors :: l.actors[a].entry in l.heap
  {
  }

  lemma DropLive(l: Locks, a: nat)
    requires Live(l) && Counted(l) && a in l.actors
    ensures Live(Dropped(l, a))
  {
    LastUser(l, a);
    hide Counted;
  }

  lemma DropCounted(l: Locks, a: nat)
    requires Live(l) && Counted(l) && a in l.actors
    ensures Counted(Dropped(l, a))
  {
    var l', ref := Dropped(l, a), l.actors[a].ref;
    var l1 := l.(actors := l.actors - {a});
    assert forall r <- l.entries :: r != ref ==> l'.heap[l.entries[r]] == l.heap[l.entries[r]];
    assert l'.heap[l.entries[ref]].refs == l.heap[l.entries[ref]].refs - 1;
    hide Live;
    forall r | r in l'.entries && l'.entries[r] in l'.heap ensures l'.heap[l'.entries[r]].refs == |Users(l', r)| > 0 {
      UsersSplit(l, r, a);
      SameUsers(l1, l', r);
    }
  }

  lemma DropExclusive(l: Locks, a: nat)
    requires Live(l) && Exclusive(l) && a in l.actors
    ensures Exclusive(Dropped(l, a))
  {
    var l' := Dropped(l, a);
    forall r | r in l'.entries && l'.entries[r] in l'.heap && l'.heap[l'.entries[r]].held
      ensures exists b :: b in l'.actors && l'.actors[b].ref == r && HasSlot(l'.actors[b])
    {
      var b :| b in l.actors && l.actors[b].ref == r && HasSlot(l.actors[b]);
      assert b in l'.actors;
    }
  }

  lemma DropKeeps(l: Locks, a: nat)
    requires Inv(l) && a in l.actors
    ensures l.actors[a].entry in l.heap && Inv(Dropped(l, a))
  {
    assert l.actors[a].entry in l.heap;
    DropLive(l, a);
    DropCounted(l, a);
    DropExclusive(l, a);
    hide Live, Counted, Exclusive, Dropped;
  }

  /** A caller that stays where it is changes the state of its slot only. */
  lemma SlotCounted(l: Locks, l': Locks)
    requires Live(l) && Counted(l) && SameUses(l, l') && l' == l.(heap := l'.heap, actors := l'.actors)
    requires l'.heap.Keys == l.heap.Keys && forall p <- l.heap :: l'.heap[p].refs == l.heap[p].refs
    ensures Live(l') && Counted(l')
  {
    forall r | r in l'.entries ensures Users(l', r) == Users(l, r) {
      SameUsers(l, l', r);
    }
  }

  lemma SendKeeps(l: Locks, a: nat)
    requires Inv(l) && a in l.actors && l.actors[a].Registered?
    requires l.actors[a].entry in l.heap && !l.heap[l.actors[a].entry].held
    ensures Inv(Sent(l, a))
  {
    SlotCounted(l, Sent(l, a));
    SendExclusive(l, a);
    hide Live, Counted, Exclusive, Sent;
  }

  lemma SendExclusive(l: Locks, a: nat)
    requires Live(l) && Exclusive(l) && a in l.actors && l.actors[a].Registered?
    requires l.actors[a].entry in l.heap && !l.heap[l.actors[a].entry].held
    ensures Exclusive(Sent(l, a))
  {
    var l', ref := Sent(l, a), l.actors[a].ref;
    assert l'.actors[a].ref == ref && HasSlot(l'.actors[a]);
    forall r | r in l'.entries && l'.entries[r] in l'.heap && l'.heap[l'.entries[r]].held
      ensures exists b :: b in l'.actors && l'.actors[b].ref == r && HasSlot(l'.actors[b])
    {
      if r != ref {
        var b :| b in l.actors && l.actors[b].ref == r && HasSlot(l.actors[b]);
        assert l'.actors[b] == l.actors[b];
      }
    }
  }

  lemma GrantKeeps(l: Locks, a: nat)
    requires Inv(l) && a in l.actors && l.actors[a].Holding?
    ensures Inv(Granted(l, a))
  {
    SlotCounted(l, Granted(l, a));
    GrantExclusive(l, a);
    hide Live, Counted, Exclusive;
  }

  lemma GrantExclusive(l: Locks, a: nat)
    requires Exclusive(l) && a in l.actors && l.actors[a].Holding?
    ensures Exclusive(Granted(l, a))
  {
    var l' := Granted(l, a);
    forall r | r in l'.entries && l'.entries[r] in l'.heap && l'.heap[l'.entries[r]].held
      ensures exists b :: b in l'.actors && l'.actors[b].ref == r && HasSlot(l'.actors[b])
    {
      var b :| b in l.actors && l.actors[b].ref == r && HasSlot(l.actors[b]);
      assert HasSlot(l'.actors[b]) && l'.actors[b].ref == r;
    }
  }

  lemma NextKeeps(l: Locks, step: Step)
    requires Inv(l)
    ensures Inv(Next(l, step))
  {
    hide Inv;
    match step
    case Register(ref) => RegisterKeeps(l, ref);
    case Send(a) => if Is(l, a, true, false) && !l.heap[l.actors[a].entry].held { SendKeeps(l, a); }
    case Cancel(a) => if Is(l, a, true, false) { DropKeeps(l, a); }
    case Grant(a) => if Is(l, a, false, true) { GrantKeeps(l, a); }
    case Refuse(a) => if Is(l, a, false, true) { DropKeeps(l, a); }
    case Release(a) => if Is(l, a, false, false) { DropKeeps(l, a); }
  }

  /******* Runs *******/

  function After(steps: seq<Step>): Locks {
    if steps == [] then EMPTY else Next(After(steps[..|steps| - 1]), steps[|steps| - 1])
  }

  /** In every run a reference never has two holders although its entries come and go, refs is the number of
      callers registered, and the map has an entry exactly for the references that somebody uses. */
  lemma {:induction false} EveryRun(steps: seq<Step>)
    ensures var l := After(steps);
      && Inv(l)
      && (forall a <- l.actors, b <- l.actors ::
            l.actors[a].ref == l.actors[b].ref && HasSlot(l.actors[a]) && HasSlot(l.actors[b]) ==> a == b)
      && (forall r <- l.entries :: l.entries[r] in l.heap && l.heap[l.entries[r]].refs == |Users(l, r)|)
      && (forall r :: r in l.entries <==> Users(l, r) != {})
      && (l.actors == map[] ==> l.entries == map[])
  {
    if steps != [] {
      EveryRun(steps[..|steps| - 1]);
      NextKeeps(After(steps[..|steps| - 1]), steps[|steps| - 1]);
    }
    UsedIffPresent(After(steps));
  }

  lemma UsedIffPresent(l: Locks)
    requires Inv(l)
    ensures forall r :: r in l.entries <==> Users(l, r) != {}
    ensures l.actors == map[] ==> l.entries == map[]
  {
  }

  /** Nobody waits for a free lock in vain, and nobody is refused for the wrong reference: a registered caller can
      take the slot exactly when no other caller has the lock of its reference. */
  lemma FreeIffNoHolder(l: Locks, a: nat)
    requires Inv(l) && a in l.actors && l.actors[a].Registered?
    ensures Next(l, Send(a)) != l <==> forall b <- l.actors :: l.actors[b].ref == l.actors[a].ref ==> !HasSlot(l.actors[b])
  {
  }

  /** A cancelled caller never owns the lock, and leaves no trace. */
  lemma CancelUndoes(l: Locks, ref: Ref)
    requires Inv(l)
    ensures var l1 := Next(l, Register(ref));
      var l2 := Next(l1, Cancel(l1.supply - 1));
      && l2.entries.Keys == l.entries.Keys && l2.actors == l.actors
      && forall r <- l.entries :: l2.entries[r] == l.entries[r] && l2.heap[l.entries[r]] == l.heap[l.entries[r]]
  {
    assert Live(l) && (ref in l.entries ==> l.heap[l.entries[ref]].refs > 0);
    hide Inv, Counted, Exclusive;
    if ref in l.entries {
      CancelAtEntry(l, ref);
    } else {
      CancelAtNewEntry(l, ref);
    }
  }

  lemma CancelAtEntry(l: Locks, ref: Ref)
    requires Live(l) && ref in l.entries && l.heap[l.entries[ref]].refs > 0
    ensures var l1 := Next(l, Register(ref));
      var l2 := Next(l1, Cancel(l1.supply - 1));
      && l2.entries == l.entries && l2.actors == l.actors
      && forall r <- l.entries :: l2.heap[l.entries[r]] == l.heap[l.entries[r]]
  {
    var l1, p, a := Registering(l, ref), l.entries[ref], l.supply;
    assert a !in l.actors && l1.actors == l.actors[a := Registered(ref, p)] && l1.actors - {a} == l.actors;
    assert l1.entries == l.entries && l1.heap == l.heap[p := l.heap[p].(refs := l.heap[p].refs + 1)];
    hide Registering;
    assert Dropped(l1, a).heap[p] == l.heap[p];
  }

  lemma CancelAtNewEntry(l: Locks, ref: Ref)
    requires Live(l) && ref !in l.entries
    ensures var l1 := Next(l, Register(ref));
      var l2 := Next(l1, Cancel(l1.supply - 1));
      && l2.entries == l.entries && l2.actors == l.actors
      && forall r <- l.entries :: l2.heap[l.entries[r]] == l.heap[l.entries[r]]
  {
    var l1, p, a := Registering(l, ref), l.supply, l.supply + 1;
    assert a !in l.actors && l1.actors == l.actors[a := Registered(ref, p)] && l1.actors - {a} == l.actors;
    assert l1.entries == l.entries[ref := p] && l1.entries - {ref} == l.entries;
    assert l1.heap == l.heap[p := Entry(false, 1)] && p !in l.heap;
    hide Registering;
  }

  /******* The locks themselves *******/

  class CacheLockTable {
    var entries: map<Ref, nat>
    var heap: map<nat, Entry>
    var actors: map<nat, Actor>
    var supply: nat

    ghost function L(): Locks
      reads this
    {
      Locks(entries, heap, actors, supply)
    }

    constructor ()
      ensures L() == EMPTY && Inv(L())
    {
      entries, heap, actors, supply := map[], map[], map[], 0;
    }

    /** The first half of acquire: find or make the entry, and register. */
    method Begin(ref: Ref) returns (a: nat)
      requires Inv(L())
      modifies this
      ensures Inv(L()) && L() == Next(old(L()), Register(ref))
      ensures a in actors && actors[a].Registered? && actors[a].ref == ref
    {
      hide Inv;
      ghost var l := L();
      RegisterKeeps(l, ref);
      Pointers(l);
      if ref !in entries {
        entries, heap, supply := entries[ref := supply], heap[supply := Entry(false, 0)], supply + 1;
      }
      var p := entries[ref];
      heap := heap[p := heap[p].(refs := heap[p].refs + 1)];
      a := supply;
      actors, supply := actors[a := Registered(ref, p)], a + 1;
      assert L() == Registering(l, ref);
    }

    /** The second half, once the select has an answer: a token that was sent, or a context that ended first. */
    method End(a: nat, sent: bool, done: bool) returns (granted: bool)
      requires Inv(L()) && a in actors && actors[a].Registered? && actors[a].entry in heap
      requires sent ==> !heap[actors[a].entry].held
      modifies this
      ensures Inv(L()) && (granted <==> sent && !done)
      ensures L() == if !sent then Next(old(L()), Cancel(a)) else
                     var l := Next(old(L()), Send(a)); if done then Next(l, Refuse(a)) else Next(l, Grant(a))
      ensures granted ==> a in actors && actors[a].Owning?
      ensures !granted ==> a !in actors
    {
      hide Inv, Dropped;
      if !sent {
        Drop(a);
        return false;
      }
      ghost var l := L();
      SendKeeps(l, a);
      var p := actors[a].entry;
      heap := heap[p := heap[p].(held := true)];
      actors := actors[a := Holding(actors[a].ref, p)];
      assert L() == Sent(l, a);
      if done {
        Drop(a);
        return false;
      }
      ghost var l1 := L();
      GrantKeeps(l1, a);
      actors := actors[a := Owning(actors[a].ref, p)];
      assert L() == Granted(l1, a);
      return true;
    }

    method Drop(a: nat)
      requires Inv(L()) && a in actors && actors[a].entry in heap
      modifies this
      ensures Inv(L()) && L() == Dropped(old(L()), a) && a !in actors
    {
      hide Inv;
      ghost var l := L();
      DropKeeps(l, a);
      var ref, p, owned := actors[a].ref, actors[a].entry, !actors[a].Registered?;
      if owned {
        heap := heap[p := heap[p].(held := false)];
      }
      heap := heap[p := heap[p].(refs := heap[p].refs - 1)];
      if heap[p].refs == 0 {
        entries := entries - {ref};
      }
      actors := actors - {a};
      assert heap == Dropped(l, a).heap;
      assert L() == Dropped(l, a);
    }
  }
}
