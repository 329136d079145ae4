/** The session object with its fields updated in place. Each method is one uninterrupted
    stretch of the original: a critical section of a caller, the reader's dispatch of a
    frame, a batch or its whole life, a drain, or one receive. How these stretches
    interleave is the subject of module Multiplexer.
 */
module SessionObject {
  import opened Protocol
  import opened Tags
  import opened Dispatch

  /** `replies` are the responses a drain of `pending` has sent when `rest` is still to do:
      each tag handled got exactly one, carrying `why` to that entry's waker, and no other
      tag got any. */
  ghost predicate Drains(pending: map<u16, Entry>, rest: map<u16, Entry>, why: ClientError, replies: seq<Reply>) {
    forall t: u16 ::
      RepliesFor(replies, t) ==
      if t in pending && t !in rest then [Reply(t, pending[t].waker, ErrMsg(why))] else []
  }

  ghost predicate Submap(part: map<u16, Entry>, all: map<u16, Entry>) {
    forall t :: t in part ==> t in all && part[t] == all[t]
  }

  lemma Regroup(before: seq<Reply>, sent: seq<Reply>, r: Reply)
    ensures before + sent + [r] == before + (sent + [r])
  {
  }

  lemma DrainOneMore(pending: map<u16, Entry>, rest: map<u16, Entry>, why: ClientError, replies: seq<Reply>, t: u16)
    requires Drains(pending, rest, why, replies) && t in pending && t in rest
    ensures Drains(pending, rest - {t}, why, replies + [Reply(t, pending[t].waker, ErrMsg(why))])
  {
    var r := Reply(t, pending[t].waker, ErrMsg(why));
    forall u: u16
      ensures RepliesFor(replies + [r], u) ==
              if u in pending && u !in rest - {t} then [Reply(u, pending[u].waker, ErrMsg(why))] else []
    {
      RepliesForConcat(replies, [r], u);
      assert [r][1..] == [];
    }
  }

  class Session {
    const tags: TagCounter
    var pending: map<u16, Entry>
    var closed: bool
    var replies: seq<Reply>
    var rxQueue: seq<RxPayload>
    var errQueue: seq<ClientError>

    ghost function State(): ReaderState
      reads this
    {
      ReaderState(pending, replies, rxQueue, errQueue)
    }

    /** Tag 0 is never outstanding: it belongs to asynchronous events. */
    ghost predicate Valid()
      reads this, tags
    {
      tags.Valid() && 0 !in pending
    }

    constructor Spawn()
      ensures Valid() && fresh(tags) && tags.issued == 0 && !closed
      ensures State() == ReaderState(map[], [], [], [])
    {
      tags := new TagCounter();
      pending, closed := map[], false;
      replies, rxQueue, errQueue := [], [], [];
    }

    /** What `send_command` does first: nothing on a closed session, otherwise it takes the
        tag of the next allocation. */
    method Begin() returns (r: Result<u16, ClientError>)
      requires Valid()
      modifies tags
      ensures Valid() && State() == old(State())
      ensures closed ==> r == Failure(CLOSED_BY_CLOSE) && tags.issued == old(tags.issued)
      ensures !closed ==>
        && r == Success(NthTag(old(tags.issued))) && r.value != 0 && tags.issued == old(tags.issued) + 1
    {
      if closed {
        return Failure(CLOSED_BY_CLOSE);
      }
      var tag := tags.AllocTag();
      r := Success(tag);
    }

    /** Insert overwrites: the sender of a previous entry at this tag is dropped. */
    method InsertPending(tag: u16, cmd: CmdType, waker: nat)
      requires Valid() && tag != 0
      modifies this`pending
      ensures Valid() && pending == old(pending)[tag := Entry(cmd, waker)]
    {
      pending := pending[tag := Entry(cmd, waker)];
    }

    method RemovePending(tag: u16) returns (removed: Option<Entry>)
      requires Valid()
      modifies this`pending
      ensures Valid() && pending == old(pending) - {tag} && removed == At(old(State()), tag)
    {
      removed := if tag in pending then Some(pending[tag]) else None;
      pending := pending - {tag};
    }

    method Send(tag: u16, waker: nat, resp: Response)
      modifies this`replies
      ensures replies == old(replies) + [Reply(tag, waker, resp)]
    {
      replies := replies + [Reply(tag, waker, resp)];
    }

    method DispatchAsync(codec: Codec, f: Frame)
      requires Valid() && f.tag == 0
      modifies this`rxQueue, this`errQueue
      ensures Valid() && State() == DispatchFrame(codec, old(State()), f)
    {
      match f.ty {
        case RX =>
          match codec.decodeRx(f.payload) {
            case Some(rx) => rxQueue := rxQueue + [rx];
            case None => errQueue := errQueue + [BadFrame("bad RX payload")];
          }
        case ERR =>
          match codec.decodeErr(f.payload) {
            case Some(code) => errQueue := errQueue + [FromWire(code)];
            case None => errQueue := errQueue + [BadFrame("bad async ERR payload")];
          }
        case _ =>
      }
    }

    method DispatchOne(codec: Codec, f: Frame)
      requires Valid()
      modifies this`pending, this`replies, this`rxQueue, this`errQueue
      ensures Valid() && State() == DispatchFrame(codec, old(State()), f)
    {
      if f.tag == 0 {
        DispatchAsync(codec, f);
        return;
      }
      var removed := RemovePending(f.tag);
      if removed.None? {
        assert pending == old(pending);
        return;
      }
      var Entry(cmd, waker) := removed.value;
      if cmd == Tx && f.ty == OK {
        InsertPending(f.tag, cmd, waker);
        return;
      }
      Send(f.tag, waker, Answer(codec, cmd, f));
    }

    method DispatchBatch(codec: Codec, works: seq<FrameWork>)
      requires Valid()
      modifies this`pending, this`replies, this`rxQueue, this`errQueue
      ensures Valid() && State() == Run(codec, old(State()), works)
    {
      var i := 0;
      while i < |works|
        invariant 0 <= i <= |works| && Valid()
        invariant Run(codec, State(), works[i..]) == Run(codec, old(State()), works)
      {
        match works[i] {
          case Decoded(f) => DispatchOne(codec, f);
          case Corrupt => errQueue := errQueue + [CORRUPT_ERROR];
        }
        assert works[i..][1..] == works[i + 1..];
        i := i + 1;
      }
    }

    /** Answer one entry of a drain's hand, whichever the iteration order yields. */
    method DrainOne(hand: map<u16, Entry>, why: ClientError, ghost all: map<u16, Entry>, ghost sent: seq<Reply>)
        returns (rest: map<u16, Entry>, ghost r: Reply)
      requires hand != map[] && Submap(hand, all) && Drains(all, hand, why, sent)
      modifies this`replies
      ensures Submap(rest, all) && rest.Keys < hand.Keys && Drains(all, rest, why, sent + [r])
      ensures replies == old(replies) + [r]
    {
      var t :| t in hand;
      DrainOneMore(all, hand, why, sent, t);
      Send(t, hand[t].waker, ErrMsg(why));
      r := Reply(t, hand[t].waker, ErrMsg(why));
      rest := hand - {t};
      assert t !in rest.Keys;
    }

    /** Take the whole map under the lock, then answer every entry, in any order. */
    method Drain(why: ClientError) returns (ghost sent: seq<Reply>)
      requires Valid()
      modifies this`pending, this`replies
      ensures Valid() && pending == map[]
      ensures replies == old(replies) + sent && Drains(old(pending), map[], why, sent)
    {
      ghost var all := pending;
      var hand := pending;
      pending := map[];
      sent := [];
      while hand != map[]
        invariant pending == map[] && replies == old(replies) + sent
        invariant Submap(hand, all) && Drains(all, hand, why, sent)
        decreases hand.Keys
      {
        ghost var r;
        hand, r := DrainOne(hand, why, all, sent);
        Regroup(old(replies), sent, r);
        sent := sent + [r];
      }
    }

    method Close() returns (ghost sent: seq<Reply>)
      requires Valid()
      modifies this`closed, this`pending, this`replies
      ensures Valid() && closed && pending == map[]
      ensures replies == old(replies) + sent && Drains(old(pending), map[], CLOSED_BY_CLOSE, sent)
    {
      closed := true;
      sent := Drain(CLOSED_BY_CLOSE);
    }

    /** The reader's life, from its first read until the transport ends: `batches` are the
        frames of each read. If no command is sent meanwhile, every entry outstanding at the
        start ends with exactly one response: the answer to the first frame that is final
        for it, or else the teardown error. A session already closed dispatches nothing. */
    method ReaderLoop(codec: Codec, batches: seq<seq<FrameWork>>)
      requires Valid()
      modifies this`pending, this`replies, this`rxQueue, this`errQueue
      ensures Valid() && pending == map[]
      ensures var works := if closed then [] else Flatten(batches);
              && rxQueue == old(rxQueue) + RxOf(codec, works)
              && errQueue == old(errQueue) + ErrsOf(codec, works)
              && forall t: u16 :: t != 0 ==>
                   var here := PerTag(codec, t, At(old(State()), t), FramesFor(works, t));
                   RepliesFor(replies, t) == RepliesFor(old(replies), t)
                     + (if here.entry.Some?
                        then [Reply(t, old(pending)[t].waker, ErrMsg(CLOSED_BY_READER))]
                        else here.replies)
    {
      var i := 0;
      while i < |batches|
        invariant 0 <= i <= |batches| && Valid()
        invariant closed ==> i == 0 && State() == old(State())
        invariant !closed ==> RunBatches(codec, State(), batches[i..]) == RunBatches(codec, old(State()), batches)
      {
        if closed {
          break;
        }
        DispatchBatch(codec, batches[i]);
        assert batches[i..][1..] == batches[i + 1..];
        i := i + 1;
      }
      ghost var works := if closed then [] else Flatten(batches);
      BatchingIrrelevant(codec, old(State()), batches);
      assert State() == Run(codec, old(State()), works);
      QueueProjection(codec, old(State()), works);
      ghost var before := State();
      ghost var sent := Drain(CLOSED_BY_READER);
      forall t: u16 | t != 0
        ensures var here := PerTag(codec, t, At(old(State()), t), FramesFor(works, t));
                RepliesFor(replies, t) == RepliesFor(old(replies), t)
                  + (if here.entry.Some?
                     then [Reply(t, old(pending)[t].waker, ErrMsg(CLOSED_BY_READER))]
                     else here.replies)
      {
        PerTagProjection(codec, old(State()), works, t);
        RepliesForConcat(before.replies, sent, t);
      }
    }

    /** `recv_rx` and `next_rx` once the queue lock is held: the oldest packet, if any. */
    method TakeRx() returns (rx: Option<RxPayload>)
      modifies this`rxQueue
      ensures rx.None? <==> old(rxQueue) == []
      ensures rx.None? ==> rxQueue == old(rxQueue)
      ensures rx.Some? ==> [rx.value] + rxQueue == old(rxQueue)
    {
      if rxQueue == [] {
        return None;
      }
      rx := Some(rxQueue[0]);
      rxQueue := rxQueue[1..];
    }

    method DrainAsyncErrors() returns (out: seq<ClientError>)
      modifies this`errQueue
      ensures out == old(errQueue) && errQueue == []
    {
      out := [];
      while errQueue != []
        invariant out + errQueue == old(errQueue)
        decreases |errQueue|
      {
        out := out + [errQueue[0]];
        errQueue := errQueue[1..];
      }
    }
  }
}
