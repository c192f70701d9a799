// The buffer manager: a pool of buffers handed out and released by id. Every
// method is one atomic step, as the source holds its mutex across each.
module BufferManager {

  const BUF_MGR_MAX_CNT := 64

  type Pointer = nat
  const NULL: Pointer := 0

  // An unsigned 32-bit word, as the set of its one bits: & is *, | is +, & ~ is -.
  // Bit 0 of a status marks a buffer as in use by the codec.
  type Bit = b: nat | b < 32
  type Status = set<Bit>

  datatype Pool = Pool(status: seq<Status>, ptrs: seq<Pointer>, active: nat) {
    ghost predicate WellFormed() {
      |status| == |ptrs| == BUF_MGR_MAX_CNT
    }

    // The buffer can be handed out.
    predicate Free(id: nat)
      requires WellFormed()
    {
      id < active && id < BUF_MGR_MAX_CNT && status[id] == {} && ptrs[id] != NULL
    }

    // The ids whose status is not zero.
    ghost function Busy(): set<nat>
      requires WellFormed()
    {
      set id | 0 <= id < BUF_MGR_MAX_CNT && status[id] != {}
    }

    // Buffers were added under the ids 0, 1, 2, ... once each.
    ghost predicate Orderly() {
      && WellFormed() && active <= BUF_MGR_MAX_CNT
      && forall id :: 0 <= id < BUF_MGR_MAX_CNT ==> (ptrs[id] != NULL <==> id < active)
    }
  }

  // Clearing the mask leaves no bit other than bit 0.
  predicate Frees(status: Status, mask: Status) {
    status - mask <= {0}
  }

  datatype Event =
    | Added(id: nat, ptr: Pointer)
    | HandedOut(id: nat)
    | NoneFree
    | Released(id: nat, mask: Status)
    | Marked(id: nat, mask: Status)
    | WasReset

  // What each successful call does to the pool.
  ghost predicate Follows(p: Pool, ev: Event, after: Pool) {
    && p.WellFormed()
    && match ev
       case Added(id, ptr) =>
         && id < BUF_MGR_MAX_CNT && (p.ptrs[id] == NULL || p.ptrs[id] == ptr)
         && after == Pool(p.status, p.ptrs[id := ptr], p.active + 1)
       case HandedOut(id) =>
         && p.Free(id) && (forall i :: 0 <= i < id ==> !p.Free(i))
         && after == p.(status := p.status[id := {0}])
       case NoneFree =>
         && (forall i :: 0 <= i < p.active ==> !p.Free(i))
         && after == p
       case Released(id, mask) =>
         && id < p.active && id < BUF_MGR_MAX_CNT
         && after == p.(status := p.status[id := if Frees(p.status[id], mask) then {} else p.status[id] - mask])
       case Marked(id, mask) =>
         && id < p.active && id < BUF_MGR_MAX_CNT && p.status[id] !! mask
         && after == p.(status := p.status[id := p.status[id] + mask])
       case WasReset =>
         after == p.(status := seq(BUF_MGR_MAX_CNT, _ => {}))
  }

  class BufMgr {
    var activeBufCnt: nat
    const status: array<Status>
    const ptrs: array<Pointer>

    ghost predicate Valid()
      reads this, status, ptrs
    {
      status.Length == ptrs.Length == BUF_MGR_MAX_CNT && (status as object) != (ptrs as object)
    }

    ghost function State(): (p: Pool)
      reads this, status, ptrs
    {
      Pool(status[..], ptrs[..], activeBufCnt)
    }

    constructor ()
      ensures Valid() && State().Orderly() && State().active == 0 && State().Busy() == {}
    {
      status := new Status[BUF_MGR_MAX_CNT];
      ptrs := new Pointer[BUF_MGR_MAX_CNT];
      new;
      Init();
    }

    method Init()
      requires Valid()
      modifies this, status, ptrs
      ensures State().Orderly() && State().active == 0 && State().Busy() == {}
    {
      activeBufCnt := 0;
      for id := 0 to BUF_MGR_MAX_CNT
        invariant activeBufCnt == 0
        invariant forall i :: 0 <= i < id ==> status[i] == {} && ptrs[i] == NULL
      {
        status[id] := {};
        ptrs[id] := NULL;
      }
    }

    method Reset()
      requires Valid()
      modifies status
      ensures Follows(old(State()), WasReset, State())
    {
      for id := 0 to BUF_MGR_MAX_CNT
        invariant forall i :: 0 <= i < id ==> status[i] == {}
      {
        status[id] := {};
      }
      assert status[..] == seq(BUF_MGR_MAX_CNT, _ => {});
    }

    // Refused for an id out of range or holding another buffer.
    method Add(ptr: Pointer, bufId: nat) returns (ok: bool)
      requires Valid()
      modifies this, ptrs
      ensures ok <==> bufId < BUF_MGR_MAX_CNT && old(ptrs[bufId]) in {NULL, ptr}
      ensures ok ==> Follows(old(State()), Added(bufId, ptr), State())
      ensures !ok ==> State() == old(State())
    {
      if bufId >= BUF_MGR_MAX_CNT {
        return false;
      }
      if ptrs[bufId] != NULL && ptrs[bufId] != ptr {
        return false;
      }
      ptrs[bufId] := ptr;
      activeBufCnt := activeBufCnt + 1;
      return true;
    }

    // Hands out the free buffer of the lowest id, if any; otherwise the caller's
    // id variable keeps its value.
    method GetNextFree(callerId: int) returns (ptr: Pointer, bufId: int)
      requires Valid() && activeBufCnt <= BUF_MGR_MAX_CNT
      modifies status
      ensures ptr == NULL ==> bufId == callerId && Follows(old(State()), NoneFree, State())
      ensures ptr != NULL ==>
                && 0 <= bufId < BUF_MGR_MAX_CNT && ptr == ptrs[bufId]
                && Follows(old(State()), HandedOut(bufId), State())
                && status[..] == old(status[..])[bufId := {0}] && old(status[bufId]) == {}
                && forall i :: 0 <= i < bufId ==> old(status[i]) != {} || ptrs[i] == NULL
    {
      ptr, bufId := NULL, callerId;
      for id := 0 to activeBufCnt
        invariant ptr == NULL && bufId == callerId && State() == old(State())
        invariant forall i :: 0 <= i < id ==> !State().Free(i)
        invariant forall i :: 0 <= i < id ==> status[i] != {} || ptrs[i] == NULL
      {
        if status[id] == {} && ptrs[id] != NULL {
          bufId := id;
          status[id] := {0};
          ptr := ptrs[id];
          break;
        }
      }
    }

    // Succeeds exactly when GetNextFree would hand a buffer out.
    method CheckFree() returns (ok: bool)
      requires Valid() && activeBufCnt <= BUF_MGR_MAX_CNT
      ensures ok <==> exists after, id :: Follows(State(), HandedOut(id), after)
      ensures ok <==> exists id :: 0 <= id < activeBufCnt && status[id] == {} && ptrs[id] != NULL
      ensures !ok <==> Follows(State(), NoneFree, State())
    {
      ok := false;
      for id := 0 to activeBufCnt
        invariant !ok
        invariant forall i :: 0 <= i < id ==> !State().Free(i)
        invariant forall i :: 0 <= i < id ==> status[i] != {} || ptrs[i] == NULL
      {
        if status[id] == {} && ptrs[id] != NULL {
          ok := true;
          assert State().Free(id);
          assert Follows(State(), HandedOut(id), State().(status := State().status[id := {0}]));
          break;
        }
      }
    }

    method Release(bufId: nat, mask: Status) returns (ok: bool)
      requires Valid() && activeBufCnt <= BUF_MGR_MAX_CNT
      modifies status
      ensures ok <==> bufId < activeBufCnt
      ensures ok ==> Follows(old(State()), Released(bufId, mask), State())
      ensures !ok ==> State() == old(State())
    {
      if bufId >= activeBufCnt {
        return false;
      }
      status[bufId] := status[bufId] - mask;
      OneBit(status[bufId]);
      if status[bufId] == {0} {
        status[bufId] := {};
      }
      return true;
    }

    method SetStatus(bufId: nat, mask: Status) returns (ok: bool)
      requires Valid() && activeBufCnt <= BUF_MGR_MAX_CNT
      modifies status
      ensures ok <==> bufId < activeBufCnt && old(status[bufId]) !! mask
      ensures ok ==> Follows(old(State()), Marked(bufId, mask), State())
      ensures !ok ==> State() == old(State())
    {
      if bufId >= activeBufCnt {
        return false;
      }
      if !(status[bufId] !! mask) {
        return false;
      }
      status[bufId] := status[bufId] + mask;
      return true;
    }
  }

  lemma OneBit(status: Status)
    ensures status <= {0} <==> status == {} || status == {0}
  {
  }

  // ---- adding in order ----

  // A successful add keeps the pool orderly exactly when it uses the next id and
  // a real buffer; the other calls never disturb it.
  lemma OrderlyAdds(p: Pool, ev: Event, after: Pool)
    requires p.Orderly() && Follows(p, ev, after)
    ensures after.Orderly() <==> (ev.Added? ==> ev.id == p.active && ev.ptr != NULL)
  {
    if ev.Added? {
      if ev.ptr != NULL && ev.id == p.active {
        assert forall i :: 0 <= i < BUF_MGR_MAX_CNT ==> (after.ptrs[i] != NULL <==> i < after.active);
      } else if p.active < BUF_MGR_MAX_CNT {
        assert after.ptrs[p.active] == NULL;
      }
    }
  }

  // Adding a listed buffer again succeeds and only inflates the count, so a pool
  // of fewer buffers can claim more active ids than it has slots.
  lemma AddingAgainInflates(p: Pool, id: nat)
    requires p.WellFormed() && id < BUF_MGR_MAX_CNT && p.ptrs[id] != NULL
    ensures Follows(p, Added(id, p.ptrs[id]), p.(active := p.active + 1))
  {
    assert p.ptrs[id := p.ptrs[id]] == p.ptrs;
  }

  // ---- runs ----

  // states[k + 1] follows from states[k] by events[k].
  ghost predicate Run(states: seq<Pool>, events: seq<Event>) {
    && |states| == |events| + 1
    && states[0].WellFormed()
    && forall k {:trigger events[k]} :: 0 <= k < |events| ==> Follows(states[k], events[k], states[k + 1])
  }

  lemma StatusStep(p: Pool, ev: Event, after: Pool, id: nat)
    requires Follows(p, ev, after) && id < BUF_MGR_MAX_CNT
    ensures after.WellFormed()
    ensures p.status[id] != {} && after.status[id] == {} <==>
            p.status[id] != {} && (ev.WasReset? || (ev.Released? && ev.id == id && Frees(p.status[id], ev.mask)))
    ensures p.status[id] == {} && after.status[id] != {} <==>
            p.status[id] == {} && ((ev.HandedOut? && ev.id == id) || (ev.Marked? && ev.id == id && ev.mask != {}))
  {
  }

  // A buffer that stays busy is not handed out; one handed out again was in
  // between put back by a reset or by a release that left no other bit.
  lemma {:induction false} HandedOutAgain(states: seq<Pool>, events: seq<Event>, i: nat, j: nat)
    requires Run(states, events) && i < j < |events|
    requires events[i].HandedOut? && events[j] == events[i]
    ensures exists k :: i < k < j && PutsBack(states, events, k, events[i].id)
  {
    assert Follows(states[i], events[i], states[i + 1]);
    assert Follows(states[j], events[j], states[j + 1]);
    FirstPutBack(states, events, events[i].id, i + 1, j);
  }

  ghost predicate PutsBack(states: seq<Pool>, events: seq<Event>, k: nat, id: nat)
    requires Run(states, events) && k < |events| && id < BUF_MGR_MAX_CNT
  {
    && states[k].WellFormed() && states[k].status[id] != {}
    && (|| events[k].WasReset?
        || (events[k].Released? && events[k].id == id && Frees(states[k].status[id], events[k].mask)))
  }

  lemma {:induction false} FirstPutBack(states: seq<Pool>, events: seq<Event>, id: nat, i: nat, j: nat)
    requires Run(states, events) && i <= j < |states| && id < BUF_MGR_MAX_CNT
    requires states[i].WellFormed() && states[i].status[id] != {}
    requires states[j].WellFormed() && states[j].status[id] == {}
    ensures exists k :: i <= k < j && PutsBack(states, events, k, id)
    decreases j - i
  {
    assert Follows(states[i], events[i], states[i + 1]);
    StatusStep(states[i], events[i], states[i + 1], id);
    if states[i + 1].status[id] == {} {
      assert PutsBack(states, events, i, id);
    } else {
      FirstPutBack(states, events, id, i + 1, j);
    }
  }

  // The ids handed out and not put back since.
  ghost function Held(states: seq<Pool>, events: seq<Event>, n: nat): set<nat>
    requires Run(states, events) && n <= |events|
  {
    if n == 0 then {}
    else
      var before := Held(states, events, n - 1);
      match events[n - 1]
      case HandedOut(id) => before + {id}
      case Released(id, mask) =>
        var freed := states[n - 1].WellFormed() && id < BUF_MGR_MAX_CNT && Frees(states[n - 1].status[id], mask);
        if freed then before - {id} else before
      case WasReset => {}
      case _ => before
  }

  // Only buffers that are out get marked.
  ghost predicate MarksHeld(states: seq<Pool>, events: seq<Event>)
    requires Run(states, events)
  {
    forall k {:trigger events[k]} :: 0 <= k < |events| && events[k].Marked? ==> events[k].id in Held(states, events, k)
  }

  // From an idle pool every held buffer is busy, whatever the calls; and if only
  // held buffers are marked, the busy buffers are exactly the held ones.
  lemma {:induction false} HeldIsBusy(states: seq<Pool>, events: seq<Event>, n: nat)
    requires Run(states, events) && n <= |events| && states[0].Busy() == {}
    ensures states[n].WellFormed() && Held(states, events, n) <= states[n].Busy()
    ensures MarksHeld(states, events) ==> Held(states, events, n) == states[n].Busy()
  {
    if n > 0 {
      HeldIsBusy(states, events, n - 1);
      var p, ev, after := states[n - 1], events[n - 1], states[n];
      assert Follows(p, ev, after);
      forall id: nat | id < BUF_MGR_MAX_CNT
        ensures id in Held(states, events, n) ==> id in after.Busy()
        ensures MarksHeld(states, events) && id in after.Busy() ==> id in Held(states, events, n)
      {
        StatusStep(p, ev, after, id);
      }
    }
  }

  // No buffer has two holders: what is handed out was not held.
  lemma ExclusiveHolder(states: seq<Pool>, events: seq<Event>, k: nat)
    requires Run(states, events) && k < |events| && states[0].Busy() == {} && events[k].HandedOut?
    ensures events[k].id !in Held(states, events, k)
  {
    HeldIsBusy(states, events, k);
    assert Follows(states[k], events[k], states[k + 1]);
  }

  // ---- what the bits of a status and the pointers remember ----

  predicate SetsBit(ev: Event, id: nat, b: Bit) {
    (ev.Marked? && ev.id == id && b in ev.mask) || (ev.HandedOut? && ev.id == id && b == 0)
  }

  // A reset clears every bit, a release those of its mask, and bit 0 as well when the
  // mask has all the others.
  predicate ClearsBit(p: Pool, ev: Event, id: nat, b: Bit)
    requires id < |p.status|
  {
    || ev.WasReset?
    || (ev.Released? && ev.id == id &&
        (b in ev.mask || (b == 0 && forall c :: c in p.status[id] && c != 0 ==> c in ev.mask)))
  }

  lemma BitStep(p: Pool, ev: Event, after: Pool, id: nat, b: Bit)
    requires Follows(p, ev, after) && id < BUF_MGR_MAX_CNT
    ensures after.WellFormed()
    ensures b in after.status[id] <==> SetsBit(ev, id, b) || (b in p.status[id] && !ClearsBit(p, ev, id, b))
  {
    if ev.Released? && ev.id == id {
      OthersReleased(p.status[id], ev.mask);
    }
  }

  lemma OthersReleased(status: Status, mask: Status)
    ensures Frees(status, mask) <==> forall c :: c in status && c != 0 ==> c in mask
  {
    if Frees(status, mask) {
      forall c | c in status && c != 0 ensures c in mask {
        assert c in status - mask ==> c in {0};
      }
    }
  }

  // Event k set the bit, and none since has cleared it.
  ghost predicate SetSince(states: seq<Pool>, events: seq<Event>, k: nat, n: nat, id: nat, b: Bit)
    requires Run(states, events) && n <= |events| && id < BUF_MGR_MAX_CNT
  {
    && k < n && SetsBit(events[k], id, b)
    && forall j {:trigger events[j]} :: k < j < n ==>
         states[j].WellFormed() && !ClearsBit(states[j], events[j], id, b)
  }

  lemma {:induction false} AllWellFormed(states: seq<Pool>, events: seq<Event>, n: nat)
    requires Run(states, events) && n <= |events|
    ensures forall j :: 0 <= j <= n ==> states[j].WellFormed()
  {
    if n > 0 {
      AllWellFormed(states, events, n - 1);
      assert Follows(states[n - 1], events[n - 1], states[n]);
    }
  }

  // Over every run from an idle pool a bit of a status is set exactly when some event
  // set it and none since has cleared it.
  lemma {:induction false} BitHistory(states: seq<Pool>, events: seq<Event>, n: nat, id: nat, b: Bit)
    requires Run(states, events) && n <= |events| && states[0].Busy() == {} && id < BUF_MGR_MAX_CNT
    ensures states[n].WellFormed()
    ensures b in states[n].status[id] <==> exists k: nat :: SetSince(states, events, k, n, id, b)
  {
    AllWellFormed(states, events, n);
    if n == 0 {
      assert id !in states[0].Busy();
    } else {
      hide SetsBit, ClearsBit;
      var p, ev := states[n - 1], events[n - 1];
      BitHistory(states, events, n - 1, id, b);
      assert Follows(p, ev, states[n]);
      BitStep(p, ev, states[n], id, b);
      if SetsBit(ev, id, b) {
        assert SetSince(states, events, n - 1, n, id, b);
      } else if b in states[n].status[id] {
        var k: nat :| SetSince(states, events, k, n - 1, id, b);
        assert SetSince(states, events, k, n, id, b);
      }
      if k: nat :| SetSince(states, events, k, n, id, b) {
        if k < n - 1 {
          assert SetSince(states, events, k, n - 1, id, b);
          assert events[n - 1] == ev;
        }
      }
    }
  }

  // Once a buffer is added under an id, that id means this buffer for ever.
  lemma {:induction false} IdKeepsBuffer(states: seq<Pool>, events: seq<Event>, k: nat, n: nat)
    requires Run(states, events) && k < n <= |events| && events[k].Added? && events[k].ptr != NULL
    ensures events[k].id < BUF_MGR_MAX_CNT && states[n].WellFormed() && states[n].ptrs[events[k].id] == events[k].ptr
  {
    AllWellFormed(states, events, n);
    assert Follows(states[k], events[k], states[k + 1]);
    if k < n - 1 {
      IdKeepsBuffer(states, events, k, n - 1);
      assert Follows(states[n - 1], events[n - 1], states[n]);
    }
  }
}
