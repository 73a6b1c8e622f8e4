/**
  How many streams are open (src/proto/streams/counts.rs), while streams are entered in the store,
  forgotten and removed (src/proto/streams/store.rs).
 */
module Counts {
  import opened Wrappers
  import opened FlowControl
  import opened StreamState
  import opened SendStreams

  /** Clients open odd streams, servers even ones. */
  predicate IsLocalInit(is_server: bool, id: nat) {
    is_server == (id % 2 == 0)
  }

  predicate CountsAs(s: Stream, is_server: bool, local: bool) {
    s.is_counted && IsLocalInit(is_server, s.id) == local
  }

  /** How many counted streams this end, or the other end, has opened. */
  function CountOf(slab: Slab, is_server: bool, local: bool): nat {
    if slab == [] then 0
    else CountOf(slab[..|slab| - 1], is_server, local) + CountAt(slab, |slab| - 1, is_server, local)
  }

  function CountAt(slab: Slab, k: Key, is_server: bool, local: bool): (n: nat)
    requires k < |slab|
    ensures n <= 1
  {
    if slab[k].Some? && CountsAs(slab[k].value, is_server, local) then 1 else 0
  }

  lemma {:induction false} CountUpdate(slab: Slab, k: Key, x: Option<Stream>, is_server: bool, local: bool)
    requires k < |slab|
    ensures CountOf(slab[k := x], is_server, local) ==
            CountOf(slab, is_server, local) - CountAt(slab, k, is_server, local) + CountAt(slab[k := x], k, is_server, local)
    ensures CountOf(slab, is_server, local) >= CountAt(slab, k, is_server, local)
  {
    var n := |slab| - 1;
    if k == n {
      assert slab[k := x][..n] == slab[..n];
    } else {
      assert slab[k := x][..n] == slab[..n][k := x];
      CountUpdate(slab[..n], k, x, is_server, local);
    }
  }

  lemma CountAppend(slab: Slab, s: Stream, is_server: bool, local: bool)
    requires !s.is_counted
    ensures CountOf(slab + [Some(s)], is_server, local) == CountOf(slab, is_server, local)
  {
    assert (slab + [Some(s)])[..|slab|] == slab;
  }

  /**
    The stream is counted and to be reset, but not waiting to send that: nothing will write its
    RST_STREAM any more.
   */
  predicate Abandoned(s: Stream) {
    s.is_counted && s.state.IsScheduledReset() && !s.is_pending_send
  }

  /** How many such streams this end, or the other end, has opened. */
  function AbandonedOf(slab: Slab, is_server: bool, local: bool): nat {
    if slab == [] then 0
    else AbandonedOf(slab[..|slab| - 1], is_server, local) + AbandonedAt(slab, |slab| - 1, is_server, local)
  }

  function AbandonedAt(slab: Slab, k: Key, is_server: bool, local: bool): (n: nat)
    requires k < |slab|
    ensures n <= 1
  {
    if slab[k].Some? && Abandoned(slab[k].value) && IsLocalInit(is_server, slab[k].value.id) == local then 1 else 0
  }

  lemma {:induction false} AbandonedUpdate(slab: Slab, k: Key, x: Option<Stream>, is_server: bool, local: bool)
    requires k < |slab|
    ensures AbandonedOf(slab[k := x], is_server, local) ==
            AbandonedOf(slab, is_server, local) - AbandonedAt(slab, k, is_server, local) + AbandonedAt(slab[k := x], k, is_server, local)
  {
    var n := |slab| - 1;
    if k == n {
      assert slab[k := x][..n] == slab[..n];
    } else {
      assert slab[k := x][..n] == slab[..n][k := x];
      AbandonedUpdate(slab[..n], k, x, is_server, local);
    }
  }

  /** No stream is abandoned exactly if their number is zero. */
  lemma {:induction false} NoneAbandoned(slab: Slab, is_server: bool, local: bool)
    ensures AbandonedOf(slab, is_server, local) == 0 <==>
            forall k: Key :: Live(slab, k) && IsLocalInit(is_server, slab[k].value.id) == local ==> !Abandoned(slab[k].value)
  {
    if slab != [] {
      var n := |slab| - 1;
      NoneAbandoned(slab[..n], is_server, local);
      hide Abandoned, IsLocalInit;
      assert forall k: Key :: Live(slab[..n], k) <==> Live(slab, k) && k < n;
      assert forall k: Key :: Live(slab, k) ==> Live(slab[..n], k) || k == n;
      assert slab[n].Some? ==> Live(slab, n);
    }
  }

  /**
    The counter of one side ends at zero exactly if none of its streams was lost before and every
    counted one that is to be reset still waits to send that.
   */
  lemma {:induction false} EndsAtZero(slab: Slab, lost: nat, is_server: bool, local: bool)
    ensures lost + AbandonedOf(slab, is_server, local) == 0 <==>
            lost == 0 && forall k: Key | Live(slab, k) && CountsAs(slab[k].value, is_server, local) ::
                           slab[k].value.state.IsScheduledReset() ==> slab[k].value.is_pending_send
  {
    NoneAbandoned(slab, is_server, local);
    hide IsLocalInit;
  }

  /** When all that is counted is abandoned, the two numbers agree. */
  lemma {:induction false} OnlyAbandoned(slab: Slab, is_server: bool, local: bool)
    requires forall k: Key :: Live(slab, k) && slab[k].value.is_counted ==> Abandoned(slab[k].value)
    ensures CountOf(slab, is_server, local) == AbandonedOf(slab, is_server, local)
  {
    if slab != [] {
      var n := |slab| - 1;
      forall k: Key | Live(slab[..n], k) && slab[..n][k].value.is_counted ensures Abandoned(slab[..n][k].value) {
        assert Live(slab, k);
      }
      assert slab[n].Some? ==> Live(slab, n);
      OnlyAbandoned(slab[..n], is_server, local);
    }
  }

  /** How many streams linger after a local reset. */
  function Lingering(slab: Slab): nat {
    if slab == [] then 0
    else Lingering(slab[..|slab| - 1]) + LingersAt(slab, |slab| - 1)
  }

  function LingersAt(slab: Slab, k: Key): (n: nat)
    requires k < |slab|
    ensures n <= 1
  {
    if slab[k].Some? && slab[k].value.is_pending_reset_expiration then 1 else 0
  }

  lemma {:induction false} LingeringUpdate(slab: Slab, k: Key, x: Option<Stream>)
    requires k < |slab|
    ensures Lingering(slab[k := x]) == Lingering(slab) - LingersAt(slab, k) + LingersAt(slab[k := x], k)
    ensures Lingering(slab) >= LingersAt(slab, k)
  {
    var n := |slab| - 1;
    if k == n {
      assert slab[k := x][..n] == slab[..n];
    } else {
      assert slab[k := x][..n] == slab[..n][k := x];
      LingeringUpdate(slab[..n], k, x);
    }
  }

  lemma LingeringAppend(slab: Slab, s: Stream)
    requires !s.is_pending_reset_expiration
    ensures Lingering(slab + [Some(s)]) == Lingering(slab)
  {
    assert (slab + [Some(s)])[..|slab|] == slab;
  }

  // ----- The order in which streams are visited

  /** The id map, in its own order: each stream that can still be found, once. */
  ghost predicate IdsOk(ids: seq<Key>, slab: Slab) {
    && (forall i, j :: 0 <= i < j < |ids| ==> ids[i] != ids[j])
    && (forall k: Key :: k in ids <==> Linked(slab, k))
  }

  predicate Linked(slab: Slab, k: Key) {
    Live(slab, k) && slab[k].value.is_linked
  }

  /** `swap_remove`: the last one takes the place of the one removed. */
  function SwapRemove(ids: seq<Key>, i: nat): (r: seq<Key>)
    requires i < |ids|
    ensures |r| == |ids| - 1 && r[..i] == ids[..i]
  {
    var n := |ids| - 1;
    if i == n then ids[..n] else ids[..n][i := ids[n]]
  }

  lemma SwapRemoved(ids: seq<Key>, slab: Slab, i: nat, slab1: Slab)
    requires IdsOk(ids, slab) && i < |ids|
    requires forall k: Key :: Linked(slab1, k) <==> Linked(slab, k) && k != ids[i]
    ensures IdsOk(SwapRemove(ids, i), slab1)
  {
    var n, r := |ids| - 1, SwapRemove(ids, i);
    forall k: Key ensures k in r <==> k in ids && k != ids[i] {
      if k in ids && k != ids[i] {
        var j :| 0 <= j < |ids| && ids[j] == k;
        assert r[if j == n then i else j] == k;
      }
    }
  }

  // ----- Counting

  /** A stream that is counted but can no longer be found is one that was to be reset. */
  predicate Settled(s: Stream) {
    !s.is_linked ==> s.IsClosed() && (s.is_counted ==> s.state.IsScheduledReset())
  }

  class Counts {
    const is_server: bool
    var slab: Slab
    var ids: seq<Key>
    var max_send_streams: nat
    var num_send_streams: nat
    const max_recv_streams: nat
    var num_recv_streams: nat
    const max_local_reset_streams: nat
    var num_local_reset_streams: nat
    /** Streams that were removed while they were counted. */
    ghost var lost_send: nat
    ghost var lost_recv: nat

    /** The counters are right, but for streams removed while counted. */
    ghost predicate Tallied()
      reads `ids, `slab, `num_send_streams, `num_recv_streams, `lost_send, `lost_recv
    {
      && IdsOk(ids, slab)
      && num_send_streams == CountOf(slab, is_server, true) + lost_send
      && num_recv_streams == CountOf(slab, is_server, false) + lost_recv
      && num_recv_streams <= max_recv_streams
    }

    ghost predicate Valid()
      reads this
    {
      && Tallied()
      && num_local_reset_streams >= Lingering(slab)
      && forall k: Key {:trigger Live(slab, k)} :: Live(slab, k) ==> Settled(slab[k].value)
    }

    constructor (is_server: bool, max_send: nat, max_recv: nat, max_reset: nat)
      ensures Valid() && slab == [] && ids == [] && num_send_streams == 0 && num_recv_streams == 0
      ensures this.is_server == is_server && max_recv_streams == max_recv && max_local_reset_streams == max_reset
      ensures lost_send == 0 && lost_recv == 0 && num_local_reset_streams == 0
    {
      this.is_server := is_server;
      slab, ids := [], [];
      max_send_streams, num_send_streams := max_send, 0;
      max_recv_streams, num_recv_streams := max_recv, 0;
      max_local_reset_streams, num_local_reset_streams := max_reset, 0;
      lost_send, lost_recv := 0, 0;
    }

    /** A new stream is entered in the store. */
    method Insert(s: Stream) returns (k: Key)
      requires Valid() && s.is_linked && !s.is_counted && !s.is_pending_reset_expiration
      modifies this`slab, this`ids
      ensures Valid() && k == |old(slab)| && slab == old(slab) + [Some(s)] && ids == old(ids) + [k]
    {
      k := |slab|;
      CountAppend(slab, s, is_server, true);
      CountAppend(slab, s, is_server, false);
      LingeringAppend(slab, s);
      Inserted(slab, ids, s);
      hide IdsOk, CountOf, Lingering;
      slab, ids := slab + [Some(s)], ids + [k];
      assert forall j: Key :: Live(slab, j) ==> j == k || (Live(old(slab), j) && slab[j] == old(slab)[j]);
    }

    method IncNumRecvStreams(k: Key)
      requires Valid() && Live(slab, k) && !slab[k].value.is_counted && slab[k].value.is_linked
      requires num_recv_streams < max_recv_streams && !IsLocalInit(is_server, slab[k].value.id)
      modifies this`slab, this`num_recv_streams
      ensures Valid() && num_recv_streams == old(num_recv_streams) + 1
      ensures slab == old(slab)[k := Some(old(slab)[k].value.(is_counted := true))]
    {
      Put(k, slab[k].value.(is_counted := true));
      num_recv_streams := num_recv_streams + 1;
    }

    method IncNumSendStreams(k: Key)
      requires Valid() && Live(slab, k) && !slab[k].value.is_counted && slab[k].value.is_linked
      requires num_send_streams < max_send_streams && IsLocalInit(is_server, slab[k].value.id)
      modifies this`slab, this`num_send_streams
      ensures Valid() && num_send_streams == old(num_send_streams) + 1
      ensures slab == old(slab)[k := Some(old(slab)[k].value.(is_counted := true))]
    {
      Put(k, slab[k].value.(is_counted := true));
      num_send_streams := num_send_streams + 1;
    }

    /** Replaces stream `k`; what the sums become is said, nothing else is kept. */
    method Put(k: Key, t: Stream)
      requires IdsOk(ids, slab) && Live(slab, k) && t.is_linked == slab[k].value.is_linked
      modifies this`slab
      ensures slab == old(slab)[k := Some(t)] && IdsOk(ids, slab)
      ensures forall local :: CountOf(slab, is_server, local) ==
                CountOf(old(slab), is_server, local) - CountAt(old(slab), k, is_server, local)
                + CountAt(slab, k, is_server, local)
      ensures forall local :: CountOf(old(slab), is_server, local) >= CountAt(old(slab), k, is_server, local)
      ensures Lingering(slab) == Lingering(old(slab)) - LingersAt(old(slab), k) + LingersAt(slab, k)
      ensures forall j: Key {:trigger Live(slab, j)} :: j != k && Live(slab, j) ==> Live(old(slab), j) && slab[j] == old(slab)[j]
    {
      forall local ensures CountOf(slab[k := Some(t)], is_server, local) ==
                CountOf(slab, is_server, local) - CountAt(slab, k, is_server, local)
                + CountAt(slab[k := Some(t)], k, is_server, local)
              && CountOf(slab, is_server, local) >= CountAt(slab, k, is_server, local)
      {
        CountUpdate(slab, k, Some(t), is_server, local);
      }
      LingeringUpdate(slab, k, Some(t));
      forall j: Key ensures Linked(slab[k := Some(t)], j) <==> Linked(slab, j) {
      }
      hide CountOf, Lingering;
      slab := slab[k := Some(t)];
    }

    /**
      `transition`: something happens to stream `k`, which may then linger after a reset; then it is
      uncounted, forgotten or removed as it has closed. Only the fields that the counts go by are
      restricted.
     */
    method Transition(k: Key, t: Stream, linger: bool)
      requires Valid() && Live(slab, k) && SameForCounts(slab[k].value, t)
      requires !slab[k].value.is_linked ==> t.IsClosed()
      modifies this`slab, this`ids, this`num_send_streams, this`num_recv_streams, this`num_local_reset_streams,
               this`lost_send, this`lost_recv
      ensures var u := if linger then Lingered(t, old(num_local_reset_streams) < max_local_reset_streams) else t;
              && Valid() && Transitioned(old(slab), slab, k, u)
              && lost_send == old(lost_send) + Loses(u, is_server, true) && lost_recv == old(lost_recv) + Loses(u, is_server, false)
              && num_local_reset_streams == old(num_local_reset_streams) + if u != t then 1 else 0
      ensures ids == old(ids) || (exists i :: 0 <= i < |old(ids)| && old(ids)[i] == k && ids == SwapRemove(old(ids), i))
    {
      hide Tallied, Lingering, Settled, Transitioned, Freed, Lingered, Loses;
      var is_pending_reset := slab[k].value.is_pending_reset_expiration;
      ghost var slab0 := slab;
      Act(k, t, linger);
      LingersOn(t, old(num_local_reset_streams) < max_local_reset_streams, is_pending_reset);
      ghost var slab1 := slab;
      TransitionAfter(k, is_pending_reset);
      TransitionedFrom(slab0, slab1, slab, k, slab1[k].value);
    }

    /** The first half of `transition`. */
    method Act(k: Key, t: Stream, linger: bool)
      requires Valid() && Live(slab, k) && SameForCounts(slab[k].value, t)
      modifies this`slab, this`num_local_reset_streams
      ensures Tallied() && num_local_reset_streams >= Lingering(slab)
      ensures var u := if linger then Lingered(t, old(num_local_reset_streams) < max_local_reset_streams) else t;
              slab == old(slab)[k := Some(u)] && num_local_reset_streams == old(num_local_reset_streams) + if u != t then 1 else 0
      ensures forall j: Key {:trigger Live(slab, j)} :: Live(slab, j) && j != k ==> Settled(slab[j].value)
    {
      hide IdsOk, CountOf, Lingering, Settled, Lingered;
      ghost var slab0 := slab;
      Put(k, t);
      if linger {
        EnqueueResetExpiration(k);
      }
      assert slab == slab0[k := slab[k]];
      assert forall j: Key {:trigger Live(slab, j)} :: Live(slab, j) && j != k ==> Live(slab0, j) && slab[j] == slab0[j];
    }

    /** Something happens to stream `k` of which the counts are not told. */
    method Change(k: Key, t: Stream)
      requires Valid() && Live(slab, k) && SameForCounts(slab[k].value, t) && slab[k].value.is_linked
      modifies this`slab
      ensures Valid() && slab == old(slab)[k := Some(t)]
    {
      hide IdsOk, CountOf, Lingering;
      Put(k, t);
    }

    /** `transition_after`; `is_reset_counted` says whether the stream lingered until now. */
    method TransitionAfter(k: Key, is_reset_counted: bool)
      requires Live(slab, k) && Tallied()
      requires num_local_reset_streams >= Lingering(slab) + Freed(slab[k].value, is_reset_counted)
      requires forall j: Key {:trigger Live(slab, j)} :: Live(slab, j) && j != k ==> Settled(slab[j].value)
      requires !slab[k].value.is_linked ==> slab[k].value.IsClosed()
      modifies this`slab, this`ids, this`num_send_streams, this`num_recv_streams, this`num_local_reset_streams,
               this`lost_send, this`lost_recv
      ensures Valid() && Transitioned(old(slab), slab, k, old(slab)[k].value)
      ensures var t := old(slab)[k].value;
              lost_send == old(lost_send) + Loses(t, is_server, true) && lost_recv == old(lost_recv) + Loses(t, is_server, false)
      ensures num_local_reset_streams == old(num_local_reset_streams) - Freed(old(slab)[k].value, is_reset_counted)
      ensures ids == old(ids) || (exists i :: 0 <= i < |old(ids)| && old(ids)[i] == k && ids == SwapRemove(old(ids), i))
    {
      hide Tallied, Lingering, Settled, Forgotten, Uncounted, Freed;
      ghost var t := slab[k].value;
      Forget(k, is_reset_counted);
      Uncount(k);
      AfterIs(t, slab[k].value);
      if slab[k].value.IsReleased() {
        RemoveStream(k);
      }
      OthersSettled(old(slab), slab, k);
    }

    /** A closed stream can no longer be found, once it does not linger. */
    method Forget(k: Key, is_reset_counted: bool)
      requires Live(slab, k) && Tallied()
      requires num_local_reset_streams >= Freed(slab[k].value, is_reset_counted)
      modifies this`slab, this`ids, this`num_local_reset_streams
      ensures Tallied() && Lingering(slab) == Lingering(old(slab))
      ensures slab == old(slab)[k := Some(Forgotten(old(slab)[k].value))]
      ensures num_local_reset_streams == old(num_local_reset_streams) - Freed(old(slab)[k].value, is_reset_counted)
      ensures ids == old(ids) || (exists i :: 0 <= i < |old(ids)| && old(ids)[i] == k && ids == SwapRemove(old(ids), i))
    {
      hide Tallied, Lingering;
      if slab[k].value.IsClosed() && !slab[k].value.is_pending_reset_expiration {
        Unlink(k);
        if is_reset_counted {
          num_local_reset_streams := num_local_reset_streams - 1;
        }
      } else {
        SlabAsIs(slab, k);
      }
    }

    /** A closed stream does not count any more, unless it is still to be reset. */
    method Uncount(k: Key)
      requires Live(slab, k) && Tallied()
      modifies this`slab, this`num_send_streams, this`num_recv_streams
      ensures Tallied() && Lingering(slab) == Lingering(old(slab))
      ensures slab == old(slab)[k := Some(Uncounted(old(slab)[k].value))]
    {
      hide Tallied, Lingering;
      if slab[k].value.IsClosed() && !slab[k].value.state.IsScheduledReset() && slab[k].value.is_counted {
        DecNumStreams(k);
      } else {
        SlabAsIs(slab, k);
        AsUncounted(slab[k].value);
      }
    }

    method Unlink(k: Key)
      requires Tallied() && Live(slab, k)
      modifies this`slab, this`ids
      ensures Tallied() && slab == old(slab)[k := Some(old(slab)[k].value.(is_linked := false))]
      ensures Lingering(slab) == Lingering(old(slab))
      ensures ids == old(ids) || (exists i :: 0 <= i < |old(ids)| && old(ids)[i] == k && ids == SwapRemove(old(ids), i))
    {
      UnlinkSums(slab, k, is_server);
      hide CountOf, Lingering, IdsOk;
      if slab[k].value.is_linked {
        var i := Find(k);
        UnlinkedIds(ids, slab, k, i);
        ids := SwapRemove(ids, i);
      } else {
        StillLinked(ids, slab, k, slab[k].value.(is_linked := false));
      }
      slab := slab[k := Some(slab[k].value.(is_linked := false))];
    }

    method Find(k: Key) returns (i: nat)
      requires IdsOk(ids, slab) && Linked(slab, k)
      ensures i < |ids| && ids[i] == k
    {
      i := 0;
      while ids[i] != k
        invariant i < |ids| && k !in ids[..i]
        decreases |ids| - i
      {
        NotLast(ids, k, i);
        i := i + 1;
      }
    }

    method DecNumStreams(k: Key)
      requires Tallied() && Live(slab, k) && slab[k].value.is_counted
      modifies this`slab, this`num_send_streams, this`num_recv_streams
      ensures Tallied() && slab == old(slab)[k := Some(old(slab)[k].value.(is_counted := false))]
      ensures Lingering(slab) == Lingering(old(slab))
    {
      hide IdsOk, CountOf, Lingering;
      ghost var s := slab[k].value;
      Put(k, slab[k].value.(is_counted := false));
      assert CountAt(old(slab), k, is_server, IsLocalInit(is_server, s.id)) == 1;
      if IsLocalInit(is_server, slab[k].value.id) {
        num_send_streams := num_send_streams - 1;
      } else {
        num_recv_streams := num_recv_streams - 1;
      }
    }

    method RemoveStream(k: Key)
      requires Live(slab, k) && Tallied() && slab[k].value.IsReleased() && !slab[k].value.is_linked
      modifies this`slab, this`lost_send, this`lost_recv
      ensures Tallied() && slab == old(slab)[k := None]
      ensures Lingering(slab) == Lingering(old(slab))
      ensures lost_send == old(lost_send) + CountAt(old(slab), k, is_server, true)
      ensures lost_recv == old(lost_recv) + CountAt(old(slab), k, is_server, false)
    {
      CountUpdate(slab, k, None, is_server, true);
      CountUpdate(slab, k, None, is_server, false);
      LingeringUpdate(slab, k, None);
      assert forall j: Key :: Linked(slab[k := None], j) <==> Linked(slab, j);
      hide CountOf, Lingering;
      lost_send := lost_send + CountAt(slab, k, is_server, true);
      lost_recv := lost_recv + CountAt(slab, k, is_server, false);
      slab := slab[k := None];
    }

    /** A locally reset stream lingers for a while, if there is room. */
    method EnqueueResetExpiration(k: Key)
      requires Tallied() && num_local_reset_streams >= Lingering(slab) && Live(slab, k)
      modifies this`slab, this`num_local_reset_streams
      ensures Tallied() && num_local_reset_streams >= Lingering(slab)
      ensures var s := old(slab)[k].value;
              var t := Lingered(s, old(num_local_reset_streams) < max_local_reset_streams);
              slab == old(slab)[k := Some(t)] && num_local_reset_streams == old(num_local_reset_streams) + if t != s then 1 else 0
    {
      hide IdsOk, CountOf, Lingering;
      var s := slab[k].value;
      SlabAsIs(slab, k);
      if !s.state.IsLocalError() || s.is_pending_reset_expiration {
        return;
      }
      if num_local_reset_streams < max_local_reset_streams {
        num_local_reset_streams := num_local_reset_streams + 1;
        Put(k, s.(is_pending_reset_expiration := true));
      }
    }

    /** A lingering stream has lingered long enough. */
    method Expire(k: Key)
      requires Valid() && Live(slab, k) && slab[k].value.is_pending_reset_expiration
      modifies this`slab, this`ids, this`num_send_streams, this`num_recv_streams, this`num_local_reset_streams,
               this`lost_send, this`lost_recv
      ensures Valid() && Transitioned(old(slab), slab, k, old(slab)[k].value.(is_pending_reset_expiration := false))
      ensures var t := old(slab)[k].value.(is_pending_reset_expiration := false);
              lost_send == old(lost_send) + Loses(t, is_server, true) && lost_recv == old(lost_recv) + Loses(t, is_server, false)
    {
      hide IdsOk, CountOf, Lingering;
      Put(k, slab[k].value.(is_pending_reset_expiration := false));
      TransitionAfter(k, true);
    }

    /**
      The connection has come to its end: every stream fails, and then every queue is emptied. What
      stays counted is what was lost before and what was abandoned.
     */
    method RecvEof(queues: Queues, clear_pending_accept: bool)
      requires Valid() && AllListed(queues, slab)
      modifies this`slab, this`ids, this`num_send_streams, this`num_recv_streams, this`num_local_reset_streams,
               this`lost_send, this`lost_recv
      ensures Valid()
      ensures num_send_streams == old(lost_send) + old(AbandonedOf(slab, is_server, true))
      ensures num_recv_streams == old(lost_recv) + old(AbandonedOf(slab, is_server, false))
      ensures forall k: Key :: Live(slab, k) ==> slab[k].value.IsClosed() && (slab[k].value.is_counted ==> Abandoned(slab[k].value))
    {
      hide IdsOk, Tallied, Lingering, Settled, CountOf, AbandonedOf, Transitioned, AllReset, AllListed, Listed;
      FailAll(queues);
      var left := Drain(queues, ForWindowUpdate);
      left := Drain(left, ForResetExpiration);
      if clear_pending_accept {
        left := Drain(left, ForAccept);
      }
      left := Drain(left, ForSendCapacity);
      left := Drain(left, ForSend);
      left := Drain(left, ForOpen);
      SendDrained(left, slab);
      OnlyAbandoned(slab, is_server, true);
      OnlyAbandoned(slab, is_server, false);
      Tally();
    }

    /** Empties one queue; a stream that waited to send that it is reset has now been reset. */
    method Drain(queues: Queues, w: Waiting) returns (left: Queues)
      requires Valid() && AllListed(queues, slab) && AllReset(slab)
      modifies this`slab, this`ids, this`num_send_streams, this`num_recv_streams, this`num_local_reset_streams,
               this`lost_send, this`lost_recv
      ensures Valid() && AllListed(left, slab) && AllReset(slab)
      ensures left == queues.With(w, [])
      ensures Kept(old(slab), old(lost_send), slab, lost_send, is_server, true)
      ensures Kept(old(slab), old(lost_recv), slab, lost_recv, is_server, false)
    {
      hide IdsOk, Tallied, Lingering, Settled, CountOf, AbandonedOf, Transitioned, AllReset, AllListed, Listed;
      left := queues;
      WithTwice(queues, w, [], []);
      while left.Of(w) != []
        invariant Valid() && AllListed(left, slab) && AllReset(slab) && left == queues.With(w, left.Of(w))
        invariant Kept(old(slab), old(lost_send), slab, lost_send, is_server, true)
        invariant Kept(old(slab), old(lost_recv), slab, lost_recv, is_server, false)
        decreases |left.Of(w)|
      {
        var k := left.Of(w)[0];
        ghost var slab0, left0, send0, recv0 := slab, left, lost_send, lost_recv;
        FirstWaits(left, slab, w);
        var t := Released(slab[k].value, w);
        StillClosed(slab, k, w);
        if w == ForResetExpiration {
          Expire(k);
        } else {
          Transition(k, t, false);
        }
        WithTwice(queues, w, left.Of(w), left.Of(w)[1..]);
        left := left.With(w, left.Of(w)[1..]);
        Popped(slab0, slab, left0, w, k, t);
        KeptBy(slab0, send0, slab, lost_send, is_server, true, k, t);
        KeptBy(slab0, recv0, slab, lost_recv, is_server, false, k, t);
      }
    }

    /** A transition of the only stream there is, which stays. */
    method Step(s: Stream, t: Stream, linger: bool) returns (u: Stream)
      requires Valid() && slab == [Some(s)] && s.is_linked && SameForCounts(s, t) && num_local_reset_streams == 0
      requires !t.IsClosed() && max_local_reset_streams == 1 && !t.is_pending_reset_expiration
      modifies this`slab, this`ids, this`num_send_streams, this`num_recv_streams, this`num_local_reset_streams,
               this`lost_send, this`lost_recv
      ensures Valid() && slab == [Some(u)] && u == (if linger then Lingered(t, true) else t)
      ensures lost_send == old(lost_send) && lost_recv == old(lost_recv) && num_recv_streams == old(num_recv_streams)
      ensures num_local_reset_streams == if u.is_pending_reset_expiration then 1 else 0
    {
      hide IdsOk, Lingering, CountOf, Settled, Tallied, After;
      Stays(t, linger);
      Tally();
      Transition(0, t, linger);
      u := slab[0].value;
      SameCount(s, u, is_server);
      Tally();
    }

    lemma Tally()
      requires Tallied()
      ensures IdsOk(ids, slab)
      ensures num_send_streams == CountOf(slab, is_server, true) + lost_send
      ensures num_recv_streams == CountOf(slab, is_server, false) + lost_recv
    {
    }

    /** `try_for_each` over a map from which the stream at hand may be removed. */
    method FailAll(ghost queues: Queues)
      requires Valid() && AllListed(queues, slab)
      modifies this`slab, this`ids, this`num_send_streams, this`num_recv_streams, this`num_local_reset_streams,
               this`lost_send, this`lost_recv
      ensures Valid() && AllReset(slab) && AllListed(queues, slab)
      ensures Kept(old(slab), old(lost_send), slab, lost_send, is_server, true)
      ensures Kept(old(slab), old(lost_recv), slab, lost_recv, is_server, false)
    {
      hide Tallied, Lingering, Settled, CountOf, Transitioned, IdsOk, AbandonedOf, AllListed;
      var len := |ids|;
      var i: nat := 0;
      while i < len
        invariant Valid() && i <= len == |ids| && AllListed(queues, slab)
        invariant Kept(old(slab), old(lost_send), slab, lost_send, is_server, true)
        invariant Kept(old(slab), old(lost_recv), slab, lost_recv, is_server, false)
        invariant forall j :: 0 <= j < i ==> ResetOrNot(slab, ids[j])
        decreases len - i
      {
        var k := ids[i];
        ghost var ids0, slab0, send0, recv0 := ids, slab, lost_send, lost_recv;
        Tally();
        VisitLive(ids, slab, i);
        var t := Failing(slab[k].value);
        Transition(k, t, false);
        Visited(slab0, slab, ids0, ids, i, k, t);
        Failed(slab0, slab, queues, k, t);
        KeptBy(slab0, send0, slab, lost_send, is_server, true, k, t);
        KeptBy(slab0, recv0, slab, lost_recv, is_server, false, k, t);
        if |ids| < len {
          len := len - 1;
        } else {
          i := i + 1;
        }
      }
      Tally();
      AllVisited(slab, ids);
    }
  }

  lemma UnlinkSums(slab: Slab, k: Key, is_server: bool)
    requires Live(slab, k)
    ensures var slab1 := slab[k := Some(slab[k].value.(is_linked := false))];
            && Lingering(slab1) == Lingering(slab)
            && forall local :: CountOf(slab1, is_server, local) == CountOf(slab, is_server, local)
  {
    var t := slab[k].value.(is_linked := false);
    LingeringUpdate(slab, k, Some(t));
    forall local ensures CountOf(slab[k := Some(t)], is_server, local) == CountOf(slab, is_server, local) {
      CountUpdate(slab, k, Some(t), is_server, local);
    }
    hide CountOf, Lingering;
  }

  lemma UnlinkedIds(ids: seq<Key>, slab: Slab, k: Key, i: nat)
    requires IdsOk(ids, slab) && Live(slab, k) && i < |ids| && ids[i] == k
    ensures IdsOk(SwapRemove(ids, i), slab[k := Some(slab[k].value.(is_linked := false))])
  {
    var slab1 := slab[k := Some(slab[k].value.(is_linked := false))];
    assert forall j: Key :: Linked(slab1, j) <==> Linked(slab, j) && j != k;
    SwapRemoved(ids, slab, i, slab1);
  }

  lemma StillLinked(ids: seq<Key>, slab: Slab, k: Key, t: Stream)
    requires IdsOk(ids, slab) && Live(slab, k) && t.is_linked == slab[k].value.is_linked
    ensures IdsOk(ids, slab[k := Some(t)])
  {
    assert forall j: Key :: Linked(slab[k := Some(t)], j) <==> Linked(slab, j);
  }

  function Forgotten(t: Stream): Stream {
    if t.IsClosed() && !t.is_pending_reset_expiration then t.(is_linked := false) else t
  }

  function Uncounted(t: Stream): Stream {
    if t.IsClosed() && !t.state.IsScheduledReset() then t.(is_counted := false) else t
  }

  lemma LingersOn(t: Stream, room: bool, is_pending_reset: bool)
    requires is_pending_reset == t.is_pending_reset_expiration
    ensures var u := Lingered(t, room);
            Freed(u, is_pending_reset) == Freed(t, is_pending_reset) == 0 && u.is_linked == t.is_linked && u.IsClosed() == t.IsClosed()
  {
  }

  lemma TransitionedFrom(a: Slab, b: Slab, c: Slab, k: Key, t: Stream)
    requires k < |a| && b == a[k := Some(t)] && Transitioned(b, c, k, t)
    ensures Transitioned(a, c, k, t)
  {
  }

  lemma SlabAsIs(slab: Slab, k: Key)
    requires Live(slab, k)
    ensures slab[k := Some(slab[k].value)] == slab
  {
  }

  lemma AsUncounted(t: Stream)
    requires !(t.IsClosed() && !t.state.IsScheduledReset() && t.is_counted)
    ensures Uncounted(t) == t
  {
  }

  /** The stream after the first two steps of `transition_after`. */
  function After(t: Stream): Stream {
    Uncounted(Forgotten(t))
  }

  lemma AfterIs(t: Stream, u: Stream)
    requires u == After(t) && (!t.is_linked ==> t.IsClosed())
    ensures Settled(u) && u.IsReleased() == t.IsReleased() && (u.IsReleased() ==> !u.is_linked)
    ensures (u.IsReleased() && u.is_counted <==> Forgets(t)) && u.id == t.id
  {
    assert u.IsClosed() == t.IsClosed();
    hide Stream.IsClosed;
  }

  lemma OthersSettled(a: Slab, b: Slab, k: Key)
    requires |a| == |b| && k < |a| && b == a[k := b[k]] && (b[k].Some? ==> Settled(b[k].value))
    requires forall j: Key {:trigger Live(a, j)} :: Live(a, j) && j != k ==> Settled(a[j].value)
    ensures forall j: Key {:trigger Live(b, j)} :: Live(b, j) ==> Settled(b[j].value)
  {
    hide Settled;
    forall j: Key | Live(b, j) ensures Settled(b[j].value) {
      assert j != k ==> Live(a, j);
    }
  }

  lemma Inserted(slab: Slab, ids: seq<Key>, s: Stream)
    requires IdsOk(ids, slab) && s.is_linked
    ensures IdsOk(ids + [|slab|], slab + [Some(s)])
  {
    var slab1 := slab + [Some(s)];
    forall k: Key ensures Linked(slab1, k) <==> Linked(slab, k) || k == |slab| {
    }
    assert !Linked(slab, |slab|);
  }

  lemma NotLast(ids: seq<Key>, k: Key, i: nat)
    requires i < |ids| && k in ids && k !in ids[..i] && ids[i] != k
    ensures i + 1 < |ids| && k !in ids[..i + 1]
  {
  }

  predicate SameForCounts(s: Stream, t: Stream) {
    && t.id == s.id && t.is_counted == s.is_counted && t.is_linked == s.is_linked
    && t.is_pending_reset_expiration == s.is_pending_reset_expiration
  }

  /** `enqueue_reset_expiration`, as far as there is room. */
  function Lingered(s: Stream, room: bool): Stream {
    if s.state.IsLocalError() && !s.is_pending_reset_expiration && room then s.(is_pending_reset_expiration := true) else s
  }

  /** Whether a place among the lingering streams becomes free. */
  function Freed(s: Stream, is_reset_counted: bool): nat {
    if s.IsClosed() && !s.is_pending_reset_expiration && is_reset_counted then 1 else 0
  }

  /** The stream goes away while it is counted: its RST_STREAM was never written. */
  predicate Forgets(t: Stream) {
    t.IsReleased() && t.is_counted && t.state.IsScheduledReset()
  }

  /** The count that is left behind. */
  function Loses(t: Stream, is_server: bool, local: bool): nat {
    if Forgets(t) && IsLocalInit(is_server, t.id) == local then 1 else 0
  }

  /** What becomes of stream `k` once it is `t`. */
  ghost predicate Transitioned(a: Slab, b: Slab, k: Key, t: Stream) {
    && k < |a| && |b| == |a|
    && b == a[k := if t.IsReleased() then None else Some(After(t))]
  }

  // ----- Facts about the end of the connection

  /** A failed stream, with nothing queued any more. */
  function Failing(s: Stream): Stream {
    s.(state := s.state.Failed(true), pending_send := [], buffered_send_data := 0, requested_send_capacity := 0)
  }

  /** The queues a stream can wait in. */
  datatype Waiting = ForWindowUpdate | ForResetExpiration | ForAccept | ForSendCapacity | ForSend | ForOpen

  predicate Waits(w: Waiting, s: Stream) {
    match w
    case ForWindowUpdate => s.is_pending_window_update
    case ForResetExpiration => s.is_pending_reset_expiration
    case ForAccept => s.is_pending_accept
    case ForSendCapacity => s.is_pending_send_capacity
    case ForSend => s.is_pending_send
    case ForOpen => s.is_pending_open
  }

  /** The stream leaves a queue, at the end of the connection. */
  function Released(s: Stream, w: Waiting): Stream {
    match w
    case ForWindowUpdate => s.(is_pending_window_update := false)
    case ForResetExpiration => s.(is_pending_reset_expiration := false)
    case ForAccept => s.(is_pending_accept := false)
    case ForSendCapacity => s.(is_pending_send_capacity := false)
    case ForSend =>
      s.(is_pending_send := false, state := if s.state.IsScheduledReset() then Closed(Error(true)) else s.state)
    case ForOpen => s.(is_pending_open := false)
  }

  datatype Queues = Queues(window_updates: seq<Key>, reset_expired: seq<Key>, accept: seq<Key>, capacity: seq<Key>,
                           send: seq<Key>, open: seq<Key>)
  {
    function Of(w: Waiting): seq<Key> {
      match w
      case ForWindowUpdate => window_updates
      case ForResetExpiration => reset_expired
      case ForAccept => accept
      case ForSendCapacity => capacity
      case ForSend => send
      case ForOpen => open
    }

    function With(w: Waiting, q: seq<Key>): (r: Queues)
      ensures r.Of(w) == q && forall v :: v != w ==> r.Of(v) == Of(v)
    {
      match w
      case ForWindowUpdate => this.(window_updates := q)
      case ForResetExpiration => this.(reset_expired := q)
      case ForAccept => this.(accept := q)
      case ForSendCapacity => this.(capacity := q)
      case ForSend => this.(send := q)
      case ForOpen => this.(open := q)
    }
  }

  lemma WithTwice(queues: Queues, w: Waiting, p: seq<Key>, q: seq<Key>)
    ensures queues.With(w, p).With(w, q) == queues.With(w, q) && queues.With(w, queues.Of(w)) == queues
  {
  }

  predicate WaitsIn(slab: Slab, w: Waiting, k: Key) {
    Live(slab, k) && Waits(w, slab[k].value)
  }

  /** The queue holds each stream flagged for it exactly once. */
  ghost predicate Listed(q: seq<Key>, slab: Slab, w: Waiting) {
    && (forall i, j :: 0 <= i < j < |q| ==> q[i] != q[j])
    && (forall k: Key :: k in q <==> WaitsIn(slab, w, k))
  }

  ghost predicate AllListed(queues: Queues, slab: Slab) {
    forall w :: Listed(queues.Of(w), slab, w)
  }

  lemma FirstWaits(queues: Queues, slab: Slab, w: Waiting)
    requires AllListed(queues, slab) && queues.Of(w) != []
    ensures WaitsIn(slab, w, queues.Of(w)[0])
  {
    assert Listed(queues.Of(w), slab, w);
    assert queues.Of(w)[0] in queues.Of(w);
  }

  /** The first stream of a queue has left it. */
  lemma Popped(a: Slab, b: Slab, queues: Queues, w: Waiting, k: Key, t: Stream)
    requires AllListed(queues, a) && queues.Of(w) != [] && k == queues.Of(w)[0] && Live(a, k) && AllReset(a)
    requires t == Released(a[k].value, w) && Transitioned(a, b, k, t)
    ensures AllListed(queues.With(w, queues.Of(w)[1..]), b) && AllReset(b)
  {
    PoppedReset(a, b, k, t, w);
    hide AllReset, Released, Waits, Transitioned;
    PoppedFlags(a[k].value, w);
    var left := queues.With(w, queues.Of(w)[1..]);
    forall v ensures Listed(left.Of(v), b, v) {
      assert Listed(queues.Of(v), a, v);
      StillWaits(a, b, k, t, v);
      if v == w {
        assert queues.Of(w) == [k] + left.Of(w);
      }
    }
  }

  lemma PoppedFlags(s: Stream, w: Waiting)
    ensures forall v :: Waits(v, Released(s, w)) <==> v != w && Waits(v, s)
  {
  }

  lemma PoppedReset(a: Slab, b: Slab, k: Key, t: Stream, w: Waiting)
    requires AllReset(a) && Live(a, k) && t == Released(a[k].value, w) && Transitioned(a, b, k, t)
    ensures AllReset(b)
  {
    forall j: Key ensures ResetOrNot(b, j) {
      assert ResetOrNot(a, j) && ResetOrNot(a, k);
    }
  }

  /** Only stream `k` changes its place, and it is not removed while it waits for anything. */
  lemma StillWaits(a: Slab, b: Slab, k: Key, t: Stream, v: Waiting)
    requires Live(a, k) && Transitioned(a, b, k, t)
    ensures forall j: Key :: WaitsIn(b, v, j) <==> if j == k then Waits(v, t) else WaitsIn(a, v, j)
  {
  }

  /** A stream has failed; it waits for what it waited for. */
  lemma Failed(a: Slab, b: Slab, queues: Queues, k: Key, t: Stream)
    requires AllListed(queues, a) && Live(a, k) && t == Failing(a[k].value) && Transitioned(a, b, k, t)
    ensures AllListed(queues, b)
  {
    forall v ensures Listed(queues.Of(v), b, v) {
      assert Listed(queues.Of(v), a, v);
      StillWaits(a, b, k, t, v);
      assert Waits(v, t) == Waits(v, a[k].value);
    }
  }

  /** Streams abandoned and streams lost are as many as before. */
  ghost predicate Kept(a: Slab, lost0: nat, b: Slab, lost: nat, is_server: bool, local: bool) {
    AbandonedOf(b, is_server, local) + lost == AbandonedOf(a, is_server, local) + lost0
  }

  /** A stream that is removed while counted was abandoned. */
  lemma KeptBy(a: Slab, lost0: nat, b: Slab, lost: nat, is_server: bool, local: bool, k: Key, t: Stream)
    requires Live(a, k) && Transitioned(a, b, k, t) && t.id == a[k].value.id && Abandoned(t) == Abandoned(a[k].value)
    requires lost == lost0 + Loses(t, is_server, local)
    ensures Kept(a, lost0, b, lost, is_server, local)
  {
    AbandonedUpdate(a, k, b[k], is_server, local);
    hide AbandonedOf;
  }

  predicate ResetOrNot(slab: Slab, k: Key) {
    Live(slab, k) ==> slab[k].value.IsClosed() && (slab[k].value.is_counted ==> slab[k].value.state.IsScheduledReset())
  }

  /** Every stream is closed, and counted only if it is still to be reset. */
  ghost predicate AllReset(slab: Slab) {
    forall k: Key {:trigger ResetOrNot(slab, k)} :: ResetOrNot(slab, k)
  }

  lemma VisitLive(ids: seq<Key>, slab: Slab, i: nat)
    requires IdsOk(ids, slab) && i < |ids|
    ensures Linked(slab, ids[i])
  {
    assert ids[i] in ids;
  }

  lemma Visited(a: Slab, b: Slab, ids0: seq<Key>, ids: seq<Key>, i: nat, k: Key, t: Stream)
    requires IdsOk(ids0, a) && i < |ids0| && k == ids0[i] && Live(a, k) && t == Failing(a[k].value) && Transitioned(a, b, k, t)
    requires ids == ids0 || (exists j :: 0 <= j < |ids0| && ids0[j] == k && ids == SwapRemove(ids0, j))
    requires forall j :: 0 <= j < i ==> ResetOrNot(a, ids0[j])
    ensures |ids| == |ids0| || |ids| == |ids0| - 1
    ensures forall j :: 0 <= j < i ==> j < |ids| && ResetOrNot(b, ids[j])
    ensures |ids| == |ids0| ==> ResetOrNot(b, ids[i])
  {
    assert ResetOrNot(b, k);
    if ids != ids0 {
      var j :| 0 <= j < |ids0| && ids0[j] == k && ids == SwapRemove(ids0, j);
      assert j == i;
      assert forall m :: 0 <= m < i ==> ids[m] == ids[..i][m] == ids0[..i][m] == ids0[m];
    }
    forall j | 0 <= j < i ensures ResetOrNot(b, ids0[j]) {
      assert ids0[j] != k;
    }
  }

  lemma AllVisited(slab: Slab, ids: seq<Key>)
    requires IdsOk(ids, slab) && forall j :: 0 <= j < |ids| ==> ResetOrNot(slab, ids[j])
    requires forall k: Key {:trigger Live(slab, k)} :: Live(slab, k) ==> Settled(slab[k].value)
    ensures AllReset(slab)
  {
    forall k: Key ensures ResetOrNot(slab, k) {
      if Live(slab, k) && slab[k].value.is_linked {
        assert Linked(slab, k);
        assert k in ids;
      }
    }
  }

  lemma StillClosed(slab: Slab, k: Key, w: Waiting)
    requires AllReset(slab) && WaitsIn(slab, w, k)
    ensures Released(slab[k].value, w).IsClosed() && Abandoned(Released(slab[k].value, w)) == Abandoned(slab[k].value)
  {
    assert ResetOrNot(slab, k);
  }

  /** With nobody left that waits to send, what is counted is abandoned. */
  lemma SendDrained(queues: Queues, slab: Slab)
    requires AllListed(queues, slab) && AllReset(slab) && queues.send == []
    ensures forall k: Key :: Live(slab, k) ==> slab[k].value.IsClosed() && (slab[k].value.is_counted ==> Abandoned(slab[k].value))
  {
    assert Listed(queues.Of(ForSend), slab, ForSend);
    forall k: Key | Live(slab, k) ensures slab[k].value.IsClosed() && (slab[k].value.is_counted ==> Abandoned(slab[k].value)) {
      assert ResetOrNot(slab, k) && !WaitsIn(slab, ForSend, k);
    }
  }

  // ----- A count that never comes down

  const RESPONSE: OutFrame := Data([0], true)

  /** A stream the peer opens; its settings leave it no window. */
  function Requested(): Stream {
    Stream(1, Idle, false, 0, true, FlowControl(0, 0), 0, 0, [], false, false, false, false, false, false)
  }

  function Responding(): Stream {
    Requested().(state := HalfClosedLocal(Streaming), is_counted := true, ref_count := 1, requested_send_capacity := 1,
                 buffered_send_data := 1, pending_send := [RESPONSE])
  }

  /** A server accepts a stream and sends the head of its response; the body waits for a window. */
  method Respond() returns (c: Counts)
    ensures fresh(c) && c.Valid() && c.is_server && c.lost_send == 0 && c.lost_recv == 0 && c.num_recv_streams == 1
    ensures c.max_local_reset_streams == 1 && c.num_local_reset_streams == 0 && c.slab == [Some(Responding())]
  {
    c := new Counts(true, 1, 1, 1);
    hide IdsOk, CountOf, Lingering, Settled, Counts.Tallied;
    // HEADERS without END_STREAM open the stream, which is counted and waits to be accepted.
    var k := c.Insert(Requested());
    var s := Requested();
    c.IncNumRecvStreams(k);
    s := s.(is_counted := true);
    s := c.Step(s, s.(state := s.state.RecvOpen(false, false).value.0, is_pending_accept := true), false);
    // It is accepted, and the head of the response goes out.
    s := c.Step(s, s.(is_pending_accept := false, ref_count := 1), false);
    s := c.Step(s, s.(state := s.state.SendOpen(false).value, pending_send := [Headers(false)], is_pending_send := true), false);
    s := c.Step(s, s.(pending_send := [], is_pending_send := false), false);
    // The body waits for a window; the request for capacity has no room to be queued for.
    s := c.Step(s, s.(state := s.state.SendClose(), buffered_send_data := 1, requested_send_capacity := 1,
                      pending_send := [RESPONSE]), false);
  }

  lemma BodyBlocked()
    ensures !Wants(Responding()) && Blocked(RESPONSE, Responding().send_flow.available)
  {
  }

  /**
    It answers early and drops the stream, which is to be reset once the answer is out. But the
    answer has no window, so the stream leaves the send queue again.
   */
  method AnswerEarly() returns (c: Counts)
    ensures fresh(c) && c.Valid() && c.is_server && c.lost_send == 0 && c.lost_recv == 0 && c.num_recv_streams == 1
    ensures c.max_local_reset_streams == 1 && c.num_local_reset_streams == 1
    ensures c.slab == [Some(Responding().(state := Closed(ScheduledLibraryReset(NO_ERROR)), ref_count := 0,
                                          is_pending_reset_expiration := true))]
  {
    c := Respond();
    hide IdsOk, CountOf, Lingering, Settled, Counts.Tallied;
    var s := Responding();
    // The application drops the stream: an implicit reset is scheduled, and the stream lingers.
    s := c.Step(s, s.(ref_count := 0, state := Closed(ScheduledLibraryReset(NO_ERROR)), is_pending_send := true), true);
    // Its turn to send comes, but its data is blocked.
    c.Change(0, s.(is_pending_send := false));
  }

  /** The peer resets the stream now: it is removed without being uncounted. */
  method CountLost() returns (c: Counts)
    ensures fresh(c) && c.Valid() && c.num_recv_streams == 1
    ensures CountOf(c.slab, c.is_server, false) == 0 && c.lost_recv == 1
  {
    c := AnswerEarly();
    hide IdsOk, Lingering, Counts.Tallied;
    var s := c.slab[0].value;
    c.Transition(0, s.(state := s.state.RecvReset(s.is_pending_send), pending_send := [], buffered_send_data := 0,
                       requested_send_capacity := 0), false);
    c.Expire(0);
    assert c.slab == [None];
    Emptied(c.slab);
    c.Tally();
  }

  /** The connection ends now: the stream goes the same way. */
  method EofLeavesCount() returns (c: Counts)
    ensures fresh(c) && c.Valid() && c.num_recv_streams == 1
  {
    c := AnswerEarly();
    hide IdsOk, Lingering, Counts.Tallied, CountOf;
    Alone(c.slab);
    c.RecvEof(Queues([], [0], [], [], [], []), true);
  }

  lemma Stays(t: Stream, linger: bool)
    requires !t.IsClosed()
    ensures var u := if linger then Lingered(t, true) else t;
            !u.IsReleased() && After(u) == u && !Forgets(u) && u.id == t.id && u.is_counted == t.is_counted
  {
  }

  lemma SameCount(s: Stream, t: Stream, is_server: bool)
    requires s.id == t.id && s.is_counted == t.is_counted
    ensures CountOf([Some(s)], is_server, false) == CountOf([Some(t)], is_server, false)
  {
    assert [Some(s)][..0] == [Some(t)][..0];
  }

  lemma Alone(slab: Slab)
    requires |slab| == 1 && Live(slab, 0)
    requires forall w :: Waits(w, slab[0].value) <==> w == ForResetExpiration
    ensures AllListed(Queues([], [0], [], [], [], []), slab)
    ensures forall is_server, local ::
              AbandonedOf(slab, is_server, local) == AbandonedAt(slab, 0, is_server, local)
  {
    assert slab[..0] == [];
  }

  lemma Emptied(slab: Slab)
    requires slab == [None]
    ensures forall is_server, local :: CountOf(slab, is_server, local) == 0
  {
    assert slab[..0] == [];
  }
}
