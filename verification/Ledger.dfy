/** The shared part of a session: the tag counter, the calls in progress, and who holds
    each call's one-shot sender. A sender is with its caller until it is inserted, then in
    the pending map, in the reader's hand or in the closer's hand, and is finally used or
    dropped. Each function below is what one critical section does to this state.

    A command's identity is its allocation number. It names the one-shot channel the call
    created and is never read by the code: the code sees tags only.
 */
module Ledger {
  import opened Protocol
  import opened Tags
  import opened Dispatch

  /** Who produced a response: a frame the device sent about a command, or a drain. */
  datatype Source = FromFrame(about: nat, frame: Frame) | Teardown

  /** A one-shot channel, seen from its sender: unused, used, or dropped unused. */
  datatype Slot = Open | Sent(resp: Response, source: Source) | Dropped

  datatype Phase =
    | Allocated                     // tag taken, entry not yet inserted
    | Writing                       // entry inserted, frame being written
    | Waiting                       // racing the one-shot against the timeout
    | Leaving(err: ClientError)     // about to remove the entry and return the error
    | Answered(resp: Response)      // returned the response it received
    | Failed(err: ClientError)      // returned an error
  {
    predicate Returned() {
      Answered? || Failed?
    }
  }

  /** `written`: the frame has reached the transport, so the device may answer. `fits`: the
      payload can be encoded. */
  datatype Call = Call(cmd: CmdType, tag: u16, phase: Phase, written: bool, fits: bool, slot: Slot)

  type Hand = map<u16, Entry>

  datatype Ledger = Ledger(nextTag: u16, calls: seq<Call>, pending: Hand, reader: Hand, closer: Hand)

  const EMPTY := Ledger(1, [], map[], map[], map[])

  /** Use or drop the sender of command w. */
  function Settle(calls: seq<Call>, w: nat, slot: Slot): seq<Call> {
    if w < |calls| then calls[w := calls[w].(slot := slot)] else calls
  }

  /** The entry at t, if any, is discarded, and with it its sender. */
  function DropAt(calls: seq<Call>, hand: Hand, t: u16): seq<Call> {
    if t in hand then Settle(calls, hand[t].waker, Dropped) else calls
  }

  function New(l: Ledger, cmd: CmdType, fits: bool): Ledger {
    l.(nextTag := NextTag(l.nextTag), calls := l.calls + [Call(cmd, l.nextTag, Allocated, false, fits, Open)])
  }

  function SetPhase(l: Ledger, c: nat, p: Phase): Ledger
    requires c < |l.calls|
  {
    l.(calls := l.calls[c := l.calls[c].(phase := p)])
  }

  function SetWritten(l: Ledger, c: nat): Ledger
    requires c < |l.calls|
  {
    l.(calls := l.calls[c := l.calls[c].(written := true)])
  }

  /** Whatever the map holds at t is removed unused. */
  function Discard(l: Ledger, t: u16): Ledger {
    l.(calls := DropAt(l.calls, l.pending, t), pending := l.pending - {t})
  }

  /** The caller inserts its entry; an entry already at the tag is overwritten. */
  function File(l: Ledger, c: nat): Ledger
    requires c < |l.calls|
  {
    var t := l.calls[c].tag;
    var room := Discard(l, t);
    SetPhase(room.(pending := room.pending[t := Entry(l.calls[c].cmd, c)]), c, Writing)
  }

  function TakeOne(l: Ledger, t: u16): Ledger
    requires t in l.pending
  {
    l.(pending := l.pending - {t}, reader := map[t := l.pending[t]])
  }

  /** The reader re-inserts the entry it holds, overwriting an entry at the tag. */
  function PutBack(l: Ledger, t: u16): Ledger
    requires t in l.reader
  {
    var room := Discard(l, t);
    room.(pending := room.pending[t := l.reader[t]], reader := map[])
  }

  function AllToReader(l: Ledger): Ledger {
    l.(pending := map[], reader := l.pending)
  }

  function AllToCloser(l: Ledger): Ledger {
    l.(pending := map[], closer := l.pending)
  }

  function ReaderUses(l: Ledger, t: u16, slot: Slot): Ledger
    requires t in l.reader
  {
    l.(calls := Settle(l.calls, l.reader[t].waker, slot), reader := l.reader - {t})
  }

  function CloserUses(l: Ledger, t: u16, slot: Slot): Ledger
    requires t in l.closer
  {
    l.(calls := Settle(l.calls, l.closer[t].waker, slot), closer := l.closer - {t})
  }

  // ---------------------------------------------------------------- consistency

  /** e is filed under the tag of the command whose sender it carries. */
  predicate EntryOk(calls: seq<Call>, t: u16, e: Entry) {
    && e.waker < |calls|
    && calls[e.waker].tag == t && calls[e.waker].cmd == e.cmd && !calls[e.waker].phase.Allocated?
  }

  ghost predicate HandOk(calls: seq<Call>, hand: Hand) {
    forall t :: t in hand ==> EntryOk(calls, t, hand[t])
  }

  predicate CallOk(c: nat, call: Call) {
    call.tag == NthTag(c) && (call.phase.Allocated? ==> !call.written)
  }

  ghost predicate CallsOk(calls: seq<Call>) {
    forall c :: 0 <= c < |calls| ==> CallOk(c, calls[c])
  }

  predicate Holds(hand: Hand, calls: seq<Call>, c: nat)
    requires c < |calls|
  {
    calls[c].tag in hand && hand[calls[c].tag].waker == c
  }

  function One(b: bool): nat {
    if b then 1 else 0
  }

  /** In how many places the sender of command c is. */
  function Places(l: Ledger, c: nat): nat
    requires c < |l.calls|
  {
    One(l.calls[c].phase.Allocated?)
    + One(Holds(l.pending, l.calls, c)) + One(Holds(l.reader, l.calls, c)) + One(Holds(l.closer, l.calls, c))
    + One(l.calls[c].slot != Open)
  }

  /** Waker conservation: every issued command's sender is in exactly one place. */
  ghost predicate Conserved(l: Ledger) {
    forall c :: 0 <= c < |l.calls| ==> Places(l, c) == 1
  }

  ghost predicate Valid(l: Ledger) {
    && l.nextTag == NthTag(|l.calls|)
    && CallsOk(l.calls)
    && HandOk(l.calls, l.pending) && HandOk(l.calls, l.reader) && HandOk(l.calls, l.closer)
    && Conserved(l)
  }

  /** What no operation undoes: a call's command, tag, "fits", "written", being past its
      insert, and the result it has returned. */
  ghost predicate Extends(calls: seq<Call>, calls': seq<Call>) {
    && |calls| <= |calls'|
    && forall c :: 0 <= c < |calls| ==>
         && calls'[c].cmd == calls[c].cmd && calls'[c].tag == calls[c].tag && calls'[c].fits == calls[c].fits
         && (calls[c].written ==> calls'[c].written)
         && (!calls[c].phase.Allocated? ==> !calls'[c].phase.Allocated?)
         && (calls[c].phase.Returned() ==> calls'[c].phase == calls[c].phase)
  }

  lemma SettleExtends(calls: seq<Call>, w: nat, slot: Slot)
    ensures Extends(calls, Settle(calls, w, slot))
  {
  }

  lemma DropAtExtends(calls: seq<Call>, hand: Hand, t: u16)
    ensures Extends(calls, DropAt(calls, hand, t))
  {
  }

  lemma SetPhaseExtends(l: Ledger, c: nat, p: Phase)
    requires c < |l.calls| && !l.calls[c].phase.Returned() && !p.Allocated?
    ensures Extends(l.calls, SetPhase(l, c, p).calls)
  {
  }

  lemma FileExtends(l: Ledger, c: nat)
    requires c < |l.calls| && l.calls[c].phase.Allocated?
    ensures Extends(l.calls, File(l, c).calls)
  {
    DropAtExtends(l.calls, l.pending, l.calls[c].tag);
  }

  lemma WithdrawExtends(l: Ledger, c: nat)
    requires c < |l.calls| && l.calls[c].phase.Leaving?
    ensures Extends(l.calls, SetPhase(Discard(l, l.calls[c].tag), c, Failed(l.calls[c].phase.err)).calls)
  {
    DropAtExtends(l.calls, l.pending, l.calls[c].tag);
  }

  // ---------------------------------------------------------------- every operation keeps it

  lemma NewValid(l: Ledger, cmd: CmdType, fits: bool)
    requires Valid(l)
    ensures Valid(New(l, cmd, fits))
  {
    var l' := New(l, cmd, fits);
    NextTagIsNth(|l.calls|);
    forall c | 0 <= c < |l'.calls| ensures Places(l', c) == 1 {
      if c < |l.calls| {
        assert Places(l, c) == 1;
      }
    }
  }

  lemma SetPhaseValid(l: Ledger, c: nat, p: Phase)
    requires Valid(l) && c < |l.calls| && !l.calls[c].phase.Allocated? && !p.Allocated?
    ensures Valid(SetPhase(l, c, p))
  {
    var l' := SetPhase(l, c, p);
    forall d | 0 <= d < |l'.calls| ensures Places(l', d) == 1 {
      assert Places(l, d) == 1;
    }
  }

  lemma SetWrittenValid(l: Ledger, c: nat)
    requires Valid(l) && c < |l.calls| && !l.calls[c].phase.Allocated?
    ensures Valid(SetWritten(l, c))
  {
    var l' := SetWritten(l, c);
    forall d | 0 <= d < |l'.calls| ensures Places(l', d) == 1 {
      assert Places(l, d) == 1;
    }
  }

  lemma DiscardValid(l: Ledger, t: u16)
    requires Valid(l)
    ensures Valid(Discard(l, t))
  {
    var l' := Discard(l, t);
    forall d | 0 <= d < |l'.calls| ensures Places(l', d) == 1 {
      assert Places(l, d) == 1;
    }
  }

  lemma InsertValid(l: Ledger, c: nat)
    requires Valid(l) && c < |l.calls| && l.calls[c].phase.Allocated? && l.calls[c].tag !in l.pending
    ensures Valid(SetPhase(l.(pending := l.pending[l.calls[c].tag := Entry(l.calls[c].cmd, c)]), c, Writing))
  {
    var l' := SetPhase(l.(pending := l.pending[l.calls[c].tag := Entry(l.calls[c].cmd, c)]), c, Writing);
    assert Places(l, c) == 1;
    forall d | 0 <= d < |l'.calls| ensures Places(l', d) == 1 {
      assert Places(l, d) == 1;
    }
  }

  lemma FileValid(l: Ledger, c: nat)
    requires Valid(l) && c < |l.calls| && l.calls[c].phase.Allocated?
    ensures Valid(File(l, c))
  {
    var room := Discard(l, l.calls[c].tag);
    DiscardValid(l, l.calls[c].tag);
    assert Places(l, c) == 1;
    assert room.calls[c] == l.calls[c];
    InsertValid(room, c);
  }

  lemma TakeOneValid(l: Ledger, t: u16)
    requires Valid(l) && t in l.pending && l.reader == map[]
    ensures Valid(TakeOne(l, t))
  {
    var l' := TakeOne(l, t);
    forall d | 0 <= d < |l'.calls| ensures Places(l', d) == 1 {
      assert Places(l, d) == 1;
    }
  }

  lemma PutBackValid(l: Ledger, t: u16)
    requires Valid(l) && l.reader.Keys == {t}
    ensures Valid(PutBack(l, t))
  {
    var room, l' := Discard(l, t), PutBack(l, t);
    DiscardValid(l, t);
    forall d | 0 <= d < |l'.calls| ensures Places(l', d) == 1 {
      assert Places(room, d) == 1;
    }
  }

  lemma AllToReaderValid(l: Ledger)
    requires Valid(l) && l.reader == map[]
    ensures Valid(AllToReader(l))
  {
    var l' := AllToReader(l);
    forall d | 0 <= d < |l'.calls| ensures Places(l', d) == 1 {
      assert Places(l, d) == 1;
    }
  }

  lemma AllToCloserValid(l: Ledger)
    requires Valid(l) && l.closer == map[]
    ensures Valid(AllToCloser(l))
  {
    var l' := AllToCloser(l);
    forall d | 0 <= d < |l'.calls| ensures Places(l', d) == 1 {
      assert Places(l, d) == 1;
    }
  }

  lemma ReaderUsesValid(l: Ledger, t: u16, slot: Slot)
    requires Valid(l) && t in l.reader && slot != Open
    ensures Valid(ReaderUses(l, t, slot))
  {
    var l' := ReaderUses(l, t, slot);
    forall d | 0 <= d < |l'.calls| ensures Places(l', d) == 1 {
      assert Places(l, d) == 1;
    }
  }

  lemma CloserUsesValid(l: Ledger, t: u16, slot: Slot)
    requires Valid(l) && t in l.closer && slot != Open
    ensures Valid(CloserUses(l, t, slot))
  {
    var l' := CloserUses(l, t, slot);
    forall d | 0 <= d < |l'.calls| ensures Places(l', d) == 1 {
      assert Places(l, d) == 1;
    }
  }
}
