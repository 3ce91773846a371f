/**
 * The reactor store (frontend/src/store/reactorStore.js): the selected
 * reactor and the list of reactors known to the UI, changed only through
 * its five actions. Each action is a pure function from the old state to
 * the new one; the store's shallow merge keeps every field the action does
 * not name.
 */
module ReactorStore {
  import opened Wrappers
  import opened Js
  import opened Seqs

  /** A reactor as the API returns it: a plain record keyed by `reactor_id`. */
  type Reactor = Record

  datatype ReactorState = ReactorState(selectedReactor: Option<Reactor>, reactors: seq<Reactor>)

  const ReactorIdKey: string := "reactor_id"

  /** The state the store is created with: nothing selected, no reactors. */
  const Initial: ReactorState := ReactorState(None, [])

  /** `r.reactor_id`. */
  function IdOf(r: Reactor): (v: Value) {
    Get(r, ReactorIdKey)
  }

  /** The filter predicate `r => r.reactor_id !== reactorId`. */
  function OtherThan(reactorId: Value): (p: Reactor -> bool) {
    r => IdOf(r) != reactorId
  }

  function SetSelectedReactor(st: ReactorState, reactor: Option<Reactor>): (r: ReactorState)
    ensures r.selectedReactor == reactor
    ensures r.reactors == st.reactors
  {
    st.(selectedReactor := reactor)
  }

  function SetReactors(st: ReactorState, reactors: seq<Reactor>): (r: ReactorState)
    ensures r.reactors == reactors
    ensures r.selectedReactor == st.selectedReactor
  {
    st.(reactors := reactors)
  }

  /** `[...state.reactors, reactor]`. */
  function AddReactor(st: ReactorState, reactor: Reactor): (r: ReactorState)
    ensures |r.reactors| == |st.reactors| + 1
    ensures r.reactors[..|st.reactors|] == st.reactors
    ensures r.reactors[|st.reactors|] == reactor
    ensures r.selectedReactor == st.selectedReactor
  {
    st.(reactors := st.reactors + [reactor])
  }

  /** The element-wise step of `updateReactor`. */
  function Patch(r: Reactor, reactorId: Value, updates: Record): (r': Reactor) {
    if IdOf(r) == reactorId then Assign(r, updates) else r
  }

  /**
   * `state.reactors.map(r => r.reactor_id === reactorId ? { ...r, ...updates } : r)`:
   * same length and order; a matching reactor takes each property present in
   * `updates` and keeps its own for the rest; every other reactor is unchanged.
   */
  function UpdateReactor(st: ReactorState, reactorId: Value, updates: Record): (r: ReactorState)
    ensures |r.reactors| == |st.reactors|
    ensures forall i :: 0 <= i < |st.reactors| && IdOf(st.reactors[i]) != reactorId ==>
      r.reactors[i] == st.reactors[i]
    ensures forall i :: 0 <= i < |st.reactors| && IdOf(st.reactors[i]) == reactorId ==>
      && r.reactors[i].Keys == st.reactors[i].Keys + updates.Keys
      && (forall k :: k in updates ==> r.reactors[i][k] == updates[k])
      && (forall k :: k in st.reactors[i] && k !in updates ==> r.reactors[i][k] == st.reactors[i][k])
    ensures r.selectedReactor == st.selectedReactor
  {
    st.(reactors := seq(|st.reactors|, i requires 0 <= i < |st.reactors| => Patch(st.reactors[i], reactorId, updates)))
  }

  /** `state.reactors.filter(r => r.reactor_id !== reactorId)`. */
  function RemoveReactor(st: ReactorState, reactorId: Value): (r: ReactorState)
    ensures forall x :: x in r.reactors ==> IdOf(x) != reactorId
    ensures forall x :: x in r.reactors <==> x in st.reactors && IdOf(x) != reactorId
    ensures |r.reactors| <= |st.reactors|
    ensures r.selectedReactor == st.selectedReactor
  {
    st.(reactors := Filter(st.reactors, OtherThan(reactorId)))
  }

  /** The two setters touch disjoint fields: they commute, and the last call of each wins. */
  lemma SettersIndependent(st: ReactorState, reactor: Option<Reactor>, other: Option<Reactor>, a: seq<Reactor>, b: seq<Reactor>)
    ensures SetSelectedReactor(SetReactors(st, a), reactor) == SetReactors(SetSelectedReactor(st, reactor), a)
    ensures SetReactors(SetReactors(st, a), b) == SetReactors(st, b)
    ensures SetSelectedReactor(SetSelectedReactor(st, other), reactor) == SetSelectedReactor(st, reactor)
    ensures SetSelectedReactor(SetReactors(st, a), reactor) == ReactorState(reactor, a)
  {
  }

  /**
   * The list actions never touch the selection: removing the selected
   * reactor's id leaves it selected although it is no longer in the list.
   */
  lemma RemoveLeavesStaleSelection(st: ReactorState, sel: Reactor)
    requires st.selectedReactor == Some(sel)
    ensures RemoveReactor(st, IdOf(sel)).selectedReactor == Some(sel)
    ensures sel !in RemoveReactor(st, IdOf(sel)).reactors
  {
  }

  /** Removal keeps the survivors in their original relative order. */
  lemma RemoveKeepsOrder(a: seq<Reactor>, b: seq<Reactor>, sel: Option<Reactor>, reactorId: Value)
    ensures RemoveReactor(ReactorState(sel, a + b), reactorId).reactors
         == RemoveReactor(ReactorState(sel, a), reactorId).reactors
          + RemoveReactor(ReactorState(sel, b), reactorId).reactors
  {
    FilterConcat(a, b, OtherThan(reactorId));
  }

  /** Removing an id no reactor carries changes nothing. */
  lemma RemoveAbsentIsIdentity(st: ReactorState, reactorId: Value)
    requires forall x :: x in st.reactors ==> IdOf(x) != reactorId
    ensures RemoveReactor(st, reactorId) == st
  {
    FilterKeepsAll(st.reactors, OtherThan(reactorId));
  }

  /** Removing twice is removing once. */
  lemma RemoveIdempotent(st: ReactorState, reactorId: Value)
    ensures RemoveReactor(RemoveReactor(st, reactorId), reactorId) == RemoveReactor(st, reactorId)
  {
    FilterIdempotent(st.reactors, OtherThan(reactorId));
  }

  /** The list shrinks by exactly the reactors that carried the id (counted with position). */
  lemma {:induction false} RemoveLength(st: ReactorState, reactorId: Value)
    ensures |RemoveReactor(st, reactorId).reactors|
         == |st.reactors| - |Filter(st.reactors, (r: Reactor) => IdOf(r) == reactorId)|
  {
    FilterComplementLength(st.reactors, OtherThan(reactorId), (r: Reactor) => IdOf(r) == reactorId);
  }

  /** Adding a reactor with a fresh id and then removing that id restores the list. */
  lemma AddThenRemove(st: ReactorState, reactor: Reactor)
    requires forall x :: x in st.reactors ==> IdOf(x) != IdOf(reactor)
    ensures RemoveReactor(AddReactor(st, reactor), IdOf(reactor)) == st
  {
    var p := OtherThan(IdOf(reactor));
    FilterConcat(st.reactors, [reactor], p);
    FilterKeepsAll(st.reactors, p);
    assert Filter([reactor], p) == [];
  }

  /** Updating twice with the same arguments is updating once. */
  lemma UpdateIdempotent(st: ReactorState, reactorId: Value, updates: Record)
    ensures UpdateReactor(UpdateReactor(st, reactorId, updates), reactorId, updates)
         == UpdateReactor(st, reactorId, updates)
  {
    var once := UpdateReactor(st, reactorId, updates);
    var twice := UpdateReactor(once, reactorId, updates);
    forall i | 0 <= i < |st.reactors|
      ensures twice.reactors[i] == once.reactors[i]
    {
      var r := st.reactors[i];
      if IdOf(r) == reactorId && IdOf(once.reactors[i]) == reactorId {
        assert Assign(Assign(r, updates), updates) == Assign(r, updates);
      }
    }
  }

  /** An empty update leaves every reactor as it was. */
  lemma UpdateEmptyIsIdentity(st: ReactorState, reactorId: Value)
    ensures UpdateReactor(st, reactorId, map[]) == st
  {
    var r := UpdateReactor(st, reactorId, map[]);
    forall i | 0 <= i < |st.reactors|
      ensures r.reactors[i] == st.reactors[i]
    {
      if IdOf(st.reactors[i]) == reactorId {
        assert Assign(st.reactors[i], map[]) == st.reactors[i];
      }
    }
  }

  /**
   * When the updates keep `reactor_id`, removing after updating is the same as
   * removing: the patched reactors are exactly the ones that go.
   */
  lemma {:induction false} UpdateThenRemove(st: ReactorState, reactorId: Value, updates: Record)
    requires ReactorIdKey !in updates || updates[ReactorIdKey] == reactorId
    ensures RemoveReactor(UpdateReactor(st, reactorId, updates), reactorId) == RemoveReactor(st, reactorId)
    decreases |st.reactors|
  {
    if |st.reactors| > 0 {
      var rest := ReactorState(st.selectedReactor, st.reactors[1..]);
      UpdateThenRemove(rest, reactorId, updates);
      var u := UpdateReactor(st, reactorId, updates).reactors;
      assert u[1..] == UpdateReactor(rest, reactorId, updates).reactors;
      assert IdOf(u[0]) == reactorId <==> IdOf(st.reactors[0]) == reactorId;
      if IdOf(st.reactors[0]) != reactorId {
        assert u[0] == st.reactors[0];
      }
    }
  }
}
