// The display manager: a bounded priority queue of buffers by picture order count.
module DisplayManager {

  const DISP_MGR_MAX_CNT := 64
  const DEFAULT_POC := 0x7FFF_FFFF

  type Word32 = x: int | -0x8000_0000 <= x < 0x8000_0000

  // Buffer addresses; NULL is 0.
  type Pointer = nat
  const NULL: Pointer := 0

  datatype Entry = Entry(id: nat, poc: Word32, ptr: Pointer)

  // The two arrays. A slot whose POC is the sentinel is never returned, a slot
  // with a pointer cannot be added to.
  datatype Display = Display(pocs: seq<Word32>, ptrs: seq<Pointer>) {
    ghost predicate WellFormed() {
      |pocs| == |ptrs| == DISP_MGR_MAX_CNT
    }

    // Every slot is either empty or holds a retrievable buffer.
    ghost predicate Clean() {
      WellFormed() && forall i :: 0 <= i < DISP_MGR_MAX_CNT ==> (pocs[i] == DEFAULT_POC <==> ptrs[i] == NULL)
    }

    // The buffers that can be returned.
    ghost function Stored(): set<Entry>
      requires WellFormed()
    {
      set i | 0 <= i < DISP_MGR_MAX_CNT && pocs[i] != DEFAULT_POC :: Entry(i, pocs[i], ptrs[i])
    }

    // The state with slot id holding this POC and pointer.
    function With(id: nat, poc: Word32, ptr: Pointer): Display
      requires id < |pocs| && id < |ptrs|
    {
      Display(pocs[id := poc], ptrs[id := ptr])
    }

    // A slot that no add can claim and no get can empty.
    ghost predicate Stuck(id: nat) {
      WellFormed() && id < DISP_MGR_MAX_CNT && pocs[id] == DEFAULT_POC && ptrs[id] != NULL
    }
  }

  // a leaves the queue before b: smaller POC, then larger id.
  predicate Before(a: Entry, b: Entry) {
    a.poc < b.poc || (a.poc == b.poc && a.id >= b.id)
  }

  // What a successful add, a successful get and a get on an empty queue do.
  datatype Event = Added(entry: Entry) | Got(entry: Entry) | Empty

  ghost predicate Follows(d: Display, ev: Event, after: Display) {
    && d.WellFormed()
    && match ev
       case Added(e) =>
         e.id < DISP_MGR_MAX_CNT && d.ptrs[e.id] == NULL && after == d.With(e.id, e.poc, e.ptr)
       case Got(e) =>
         && e in d.Stored() && (forall x :: x in d.Stored() ==> Before(e, x))
         && after == d.With(e.id, DEFAULT_POC, NULL)
       case Empty =>
         d.Stored() == {} && after == d
  }

  class DispMgr {
    const absPoc: array<Word32>
    const ptrs: array<Pointer>

    ghost predicate Valid()
      reads this, absPoc, ptrs
    {
      absPoc.Length == ptrs.Length == DISP_MGR_MAX_CNT
    }

    ghost function State(): Display
      reads this, absPoc, ptrs
    {
      Display(absPoc[..], ptrs[..])
    }

    constructor ()
      ensures Valid() && State().Clean() && State().Stored() == {}
    {
      absPoc := new Word32[DISP_MGR_MAX_CNT];
      ptrs := new Pointer[DISP_MGR_MAX_CNT];
      new;
      Init();
    }

    method Init()
      requires Valid()
      modifies absPoc, ptrs
      ensures State().Clean() && State().Stored() == {}
    {
      for id := 0 to DISP_MGR_MAX_CNT
        invariant forall i :: 0 <= i < id ==> absPoc[i] == DEFAULT_POC && ptrs[i] == NULL
      {
        absPoc[id] := DEFAULT_POC;
        ptrs[id] := NULL;
      }
    }

    // Fails on an id out of range or in use. An added buffer can be returned
    // exactly when its POC is not the sentinel.
    method Add(bufId: nat, poc: Word32, ptr: Pointer) returns (ret: int)
      requires Valid()
      modifies absPoc, ptrs
      ensures ret == if bufId < DISP_MGR_MAX_CNT && old(ptrs[bufId]) == NULL then 0 else -1
      ensures ret != 0 ==> State() == old(State())
      ensures ret == 0 ==> Follows(old(State()), Added(Entry(bufId, poc, ptr)), State())
    {
      if bufId >= DISP_MGR_MAX_CNT {
        return -1;
      }
      if ptrs[bufId] != NULL {
        return -1;
      }
      ptrs[bufId] := ptr;
      absPoc[bufId] := poc;
      return 0;
    }

    // Take out the stored buffer that comes before all others.
    method Get() returns (ptr: Pointer, bufId: int)
      requires Valid()
      modifies absPoc, ptrs
      ensures bufId == -1 ==> ptr == NULL && Follows(old(State()), Empty, State())
      ensures bufId != -1 ==>
                && 0 <= bufId < DISP_MGR_MAX_CNT
                && Follows(old(State()), Got(Entry(bufId, old(absPoc[bufId]), ptr)), State())
      ensures bufId != -1 ==> ptr == old(ptrs[bufId]) && old(absPoc[bufId]) != DEFAULT_POC
      ensures bufId != -1 ==>
                forall i :: 0 <= i < DISP_MGR_MAX_CNT && old(absPoc[i]) != DEFAULT_POC ==>
                  old(absPoc[bufId]) < old(absPoc[i]) || (old(absPoc[bufId]) == old(absPoc[i]) && i <= bufId)
    {
      ptr := NULL;
      var minPoc: Word32 := 0x7FFF_FFFF;
      bufId := -1;
      for id := 0 to DISP_MGR_MAX_CNT
        invariant -1 <= bufId < id
        invariant bufId == -1 ==> minPoc == 0x7FFF_FFFF && forall i :: 0 <= i < id ==> absPoc[i] == DEFAULT_POC
        invariant bufId != -1 ==> absPoc[bufId] == minPoc && minPoc != DEFAULT_POC
        invariant bufId != -1 ==> forall i :: 0 <= i < id && absPoc[i] != DEFAULT_POC ==>
                                    minPoc < absPoc[i] || (minPoc == absPoc[i] && i <= bufId)
      {
        if DEFAULT_POC != absPoc[id] && absPoc[id] <= minPoc {
          minPoc := absPoc[id];
          bufId := id;
        }
      }
      ghost var before := State();
      if bufId == -1 {
        assert before.Stored() == {};
        return;
      }
      assert Entry(bufId, before.pocs[bufId], before.ptrs[bufId]) in before.Stored();
      ptr := ptrs[bufId];
      ptrs[bufId] := NULL;
      absPoc[bufId] := DEFAULT_POC;
    }
  }

  // ---- one step on the set of stored buffers ----

  // The queue after an event, seen only as a set of entries.
  ghost function Queue(q: set<Entry>, ev: Event): set<Entry> {
    match ev
    case Added(e) => q + {e}
    case Got(e) => q - {e}
    case Empty => q
  }

  // An add that a later get can undo.
  predicate Proper(ev: Event) {
    ev.Added? ==> ev.entry.poc != DEFAULT_POC && ev.entry.ptr != NULL
  }

  lemma StoredAt(d: Display, e: Entry)
    requires d.WellFormed()
    ensures e in d.Stored() <==>
            e.id < DISP_MGR_MAX_CNT && d.pocs[e.id] != DEFAULT_POC && d.pocs[e.id] == e.poc && d.ptrs[e.id] == e.ptr
  {
  }

  // On a clean state the arrays act as the set does; the only events that spoil
  // it are adds of a sentinel POC with a pointer, or of a NULL pointer with a POC.
  lemma StepRefines(d: Display, ev: Event, after: Display)
    requires d.Clean() && Follows(d, ev, after)
    ensures after.Clean() <==> (ev.Added? ==> (ev.entry.poc == DEFAULT_POC <==> ev.entry.ptr == NULL))
    ensures Proper(ev) ==> after.Stored() == Queue(d.Stored(), ev)
    ensures ev.Added? ==> ev.entry !in d.Stored()
  {
    if !ev.Empty? {
      StoredAt(d, ev.entry);
      assert after.pocs[ev.entry.id] == if ev.Added? then ev.entry.poc else DEFAULT_POC;
      if Proper(ev) {
        forall x: Entry ensures x in after.Stored() <==> x in Queue(d.Stored(), ev) {
          StoredAt(d, x);
          StoredAt(after, x);
        }
      }
    }
  }

  // A buffer added with the sentinel POC occupies its slot for ever: no event
  // returns it, and no add succeeds on its id.
  lemma SentinelSticks(d: Display, ev: Event, after: Display, id: nat)
    requires d.Stuck(id) && Follows(d, ev, after)
    ensures after.Stuck(id)
    ensures !ev.Empty? ==> ev.entry.id != id
  {
    if ev.Got? {
      StoredAt(d, ev.entry);
    }
  }

  // A slot becomes stuck exactly by an add of the sentinel POC with a pointer.
  lemma StuckExact(d: Display, ev: Event, after: Display, id: nat)
    requires Follows(d, ev, after)
    ensures after.Stuck(id) <==>
            d.Stuck(id) || (ev.Added? && ev.entry.id == id && ev.entry.poc == DEFAULT_POC && ev.entry.ptr != NULL)
  {
    if d.Stuck(id) {
      SentinelSticks(d, ev, after, id);
    }
  }

  // A buffer added with a POC and a NULL pointer is stored, and the next add on its
  // id replaces it; an add loses no other stored buffer.
  lemma AddLosesExact(d: Display, x: Entry, after: Display, e: Entry)
    requires Follows(d, Added(x), after) && e in d.Stored()
    ensures e !in after.Stored() <==> e.id == x.id && (e.poc != x.poc || e.ptr != x.ptr)
    ensures e.id == x.id ==> e.ptr == NULL
  {
    StoredAt(d, e);
    StoredAt(after, e);
  }

  // ---- runs ----

  // states[k + 1] follows from states[k] by events[k].
  ghost predicate Run(states: seq<Display>, events: seq<Event>) {
    && |states| == |events| + 1
    && forall k {:trigger events[k]} :: 0 <= k < |events| ==> Follows(states[k], events[k], states[k + 1])
  }

  // From then on the stuck slot takes part in no event.
  lemma {:induction false} StuckForRun(states: seq<Display>, events: seq<Event>, i: nat, j: nat, id: nat)
    requires Run(states, events) && i <= j < |states| && states[i].Stuck(id)
    ensures states[j].Stuck(id)
    ensures forall k :: i <= k < j && !events[k].Empty? ==> events[k].entry.id != id
  {
    if i < j {
      StuckForRun(states, events, i, j - 1, id);
      assert Follows(states[j - 1], events[j - 1], states[j]);
      SentinelSticks(states[j - 1], events[j - 1], states[j], id);
    }
  }

  function AddedIn(events: seq<Event>): multiset<Entry> {
    if events == [] then multiset{}
    else
      var ev := events[|events| - 1];
      AddedIn(events[..|events| - 1]) + if ev.Added? then multiset{ev.entry} else multiset{}
  }

  function GotIn(events: seq<Event>): multiset<Entry> {
    if events == [] then multiset{}
    else
      var ev := events[|events| - 1];
      GotIn(events[..|events| - 1]) + if ev.Got? then multiset{ev.entry} else multiset{}
  }

  lemma RunPrefix(states: seq<Display>, events: seq<Event>)
    requires Run(states, events) && events != []
    ensures var n := |events| - 1;
            && Run(states[..n + 1], events[..n]) && Follows(states[n], events[n], states[n + 1])
  {
    var n := |events| - 1;
    forall k {:trigger events[..n][k]} | 0 <= k < n
      ensures Follows(states[..n + 1][k], events[..n][k], states[..n + 1][k + 1])
    {
      assert Follows(states[k], events[k], states[k + 1]);
    }
    assert events[n] == events[n];
  }

  // What went in is what came out and what is still there.
  ghost predicate Balanced(events: seq<Event>, q: set<Entry>) {
    AddedIn(events) == GotIn(events) + multiset(q)
  }

  lemma BalanceStep(events: seq<Event>, q: set<Entry>)
    requires events != [] && Balanced(events[..|events| - 1], q)
    requires var ev := events[|events| - 1];
             (ev.Added? ==> ev.entry !in q) && (ev.Got? ==> ev.entry in q)
    ensures Balanced(events, Queue(q, events[|events| - 1]))
  {
    var ev := events[|events| - 1];
    if ev.Added? {
      assert multiset(q + {ev.entry}) == multiset(q) + multiset{ev.entry};
    } else if ev.Got? {
      assert multiset(q) == multiset(q - {ev.entry}) + multiset{ev.entry};
    }
  }

  // Over any interleaving of adds and gets from the empty queue, what was added
  // is what came out together with what is still stored: nothing is lost,
  // invented or returned twice.
  lemma {:induction false} Conservation(states: seq<Display>, events: seq<Event>)
    requires Run(states, events) && states[0].Clean() && states[0].Stored() == {}
    requires forall ev :: ev in events ==> Proper(ev)
    ensures states[|events|].Clean()
    ensures Balanced(events, states[|events|].Stored())
    decreases |events|
  {
    if events != [] {
      var n := |events| - 1;
      RunPrefix(states, events);
      Conservation(states[..n + 1], events[..n]);
      StepRefines(states[n], events[n], states[n + 1]);
      BalanceStep(events, states[n].Stored());
    }
  }

  // What k successive gets leave behind.
  lemma {:induction false} GetsDrain(states: seq<Display>, events: seq<Event>, k: nat)
    requires Run(states, events) && states[0].Clean() && k <= |events|
    requires forall ev :: ev in events ==> ev.Got?
    ensures states[k].Clean()
    ensures forall x :: x in states[k].Stored() <==>
              x in states[0].Stored() && forall i :: 0 <= i < k ==> events[i].entry != x
  {
    if k > 0 {
      GetsDrain(states, events, k - 1);
      assert Follows(states[k - 1], events[k - 1], states[k]);
      assert events[k - 1] in events;
      StepRefines(states[k - 1], events[k - 1], states[k]);
    }
  }

  // Gets until the queue is empty return exactly the stored buffers, each once,
  // in queue order; the POCs do not decrease.
  lemma Drained(states: seq<Display>, events: seq<Event>)
    requires Run(states, events) && states[0].Clean()
    requires forall ev :: ev in events ==> ev.Got?
    requires states[|events|].WellFormed() && states[|events|].Stored() == {}
    ensures forall x :: x in states[0].Stored() <==> exists i :: 0 <= i < |events| && events[i].entry == x
    ensures forall i, j :: 0 <= i < j < |events| ==>
              && events[i].entry != events[j].entry && Before(events[i].entry, events[j].entry)
              && (|| events[i].entry.poc < events[j].entry.poc
                  || (events[i].entry.poc == events[j].entry.poc && events[i].entry.id >= events[j].entry.id))
  {
    GetsDrain(states, events, |events|);
    forall j | 0 <= j < |events|
      ensures events[j].entry in states[0].Stored()
      ensures forall i :: 0 <= i < j ==> events[i].entry != events[j].entry && Before(events[i].entry, events[j].entry)
    {
      assert events[j] in events;
      assert Follows(states[j], events[j], states[j + 1]);
      GetsDrain(states, events, j);
      forall i | 0 <= i < j
        ensures events[i].entry != events[j].entry && Before(events[i].entry, events[j].entry)
      {
        assert events[i] in events;
        assert Follows(states[i], events[i], states[i + 1]);
        GetsDrain(states, events, i);
      }
    }
  }

  // Draining a real manager: the loop stops, and its outputs are such a run.
  method Drain(m: DispMgr) returns (out: seq<Entry>, ghost states: seq<Display>)
    requires m.Valid() && m.State().Clean()
    modifies m.absPoc, m.ptrs
    ensures Run(states, seq(|out|, i requires 0 <= i < |out| => Got(out[i])))
    ensures states[0] == old(m.State()) && states[|out|] == m.State() && m.State().Stored() == {}
  {
    out := [];
    states := [m.State()];
    var going := true;
    while going
      invariant m.State().Clean() && |states| == |out| + 1
      invariant states[0] == old(m.State()) && states[|out|] == m.State()
      invariant forall k {:trigger out[k]} :: 0 <= k < |out| ==> Follows(states[k], Got(out[k]), states[k + 1])
      invariant !going ==> m.State().Stored() == {}
      decreases going, m.State().Stored()
    {
      var pocs := m.absPoc[..];
      ghost var d := m.State();
      var ptr, bufId := m.Get();
      if bufId == -1 {
        going := false;
      } else {
        var e := Entry(bufId, pocs[bufId], ptr);
        StepRefines(d, Got(e), m.State());
        out := out + [e];
        states := states + [m.State()];
      }
    }
  }
}
