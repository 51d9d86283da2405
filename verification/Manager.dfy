/** The manager as the object that joins framer, scheduler and reassembler. */
module DisguiseManager {
  import opened Outcomes
  import opened Octets
  import opened Framing
  import opened Scheduling
  import opened Reassembly
  import opened Pipeline
  import opened CellFramer
  import Classifier

  /** The observations these cells are. */
  function Observed(cells: seq<Cell>): seq<nat> {
    if cells == [] then [] else [Classifier.DiscretizePayloadSize(|cells[0].payload|)] + Observed(cells[1..])
  }

  class Manager {
    const framer: Framer
    const scheduler: Scheduler
    const reassembler: Reassembler
    var inboundQueue: bytes
    var observationQueue: seq<nat>

    ghost predicate Valid()
      reads this, framer, scheduler, scheduler.queue, reassembler
    {
      framer.Valid() && scheduler.Valid() && reassembler.Valid()
    }

    /** What the surroundings supply to this manager. */
    ghost function Supplies(): World
      reads scheduler
    {
      World(framer.draw, framer.ids, scheduler.clock, scheduler.probingInterval)
    }

    constructor (draw: nat -> Sample, ids: nat -> nat, clock: nat -> int, probingInterval: int)
      requires (forall i :: Usable(draw(i))) && forall i :: ids(i) < UINT16
      ensures Valid() && scheduler.Pending() == [] && reassembler.streams == map[] && inboundQueue == [] && observationQueue == []
    {
      framer := new Framer(draw, ids);
      scheduler := new Scheduler(clock, probingInterval);
      reassembler := new Reassembler();
      inboundQueue, observationQueue := [], [];
    }

    /** Cuts the data into cells and schedules them, one reading of the clock each. */
    method QueueApplicationData(data: bytes)
      requires Valid()
      modifies framer, scheduler`queue, scheduler`items, scheduler`tick, scheduler.queue, this`observationQueue
      ensures Valid() && forall x :: x in scheduler.queue ==> x in old(scheduler.queue) || fresh(x)
      ensures var cells := Framing.Fragment(framer.draw, old(framer.samples), framer.ids(old(framer.messages)), old(framer.seqNo), data);
        && scheduler.Pending() == ScheduleAll(Supplies(), old(scheduler.Pending()), old(scheduler.tick), cells)
        && scheduler.tick == old(scheduler.tick) + |cells|
        && observationQueue == old(observationQueue) + Observed(cells)
    {
      ghost var seqNo := framer.seqNo;
      var cells := framer.Fragment(data);
      FragmentIs(framer.draw, old(framer.samples), framer.ids(old(framer.messages)), seqNo, data);
      ScheduleCells(cells);
    }

    /** The loop over the cells of a message. */
    method ScheduleCells(cells: seq<Cell>)
      requires scheduler.Valid() && forall i :: 0 <= i < |cells| ==> cells[i].typ == TYPE_DATA
      modifies scheduler`queue, scheduler`items, scheduler`tick, scheduler.queue, this`observationQueue
      ensures scheduler.Valid() && forall x :: x in scheduler.queue ==> x in old(scheduler.queue) || fresh(x)
      ensures scheduler.Pending() == ScheduleAll(Supplies(), old(scheduler.Pending()), old(scheduler.tick), cells)
      ensures scheduler.tick == old(scheduler.tick) + |cells|
      ensures observationQueue == old(observationQueue) + Observed(cells)
    {
      ghost var w := Supplies();
      ghost var whole := ScheduleAll(w, scheduler.Pending(), scheduler.tick, cells);
      ghost var items := set x | x in scheduler.queue;
      for i := 0 to |cells|
        invariant scheduler.Valid() && Within(scheduler.queue, items)
        invariant forall x :: x in items ==> x in old(scheduler.queue) || fresh(x)
        invariant scheduler.tick == old(scheduler.tick) + i
        invariant observationQueue + Observed(cells[i..]) == old(observationQueue) + Observed(cells)
        invariant ScheduleAll(w, scheduler.Pending(), scheduler.tick, cells[i..]) == whole
      {
        assert cells[i..][0] == cells[i] && cells[i..][1..] == cells[i + 1..];
        observationQueue := observationQueue + [Classifier.DiscretizePayloadSize(|cells[i].payload|)];
        ScheduleOne(cells[i], items);
        items := items + (set x | x in scheduler.queue);
      }
      assert cells[|cells|..] == [];
    }

    method ScheduleOne(cell: Cell, ghost items: set<CellItem>)
      requires scheduler.Valid() && Within(scheduler.queue, items) && cell.typ == TYPE_DATA
      modifies scheduler`queue, scheduler`items, scheduler`tick, items
      ensures scheduler.Valid() && forall x :: x in scheduler.queue ==> x in items || fresh(x)
      ensures scheduler.tick == old(scheduler.tick) + 1
      ensures scheduler.Pending() == old(scheduler.Pending()) + [Entry(cell, scheduler.clock(old(scheduler.tick)))]
    {
      scheduler.ScheduleCell(cell);
    }

    /** The encoding of a due cell of least priority, or None when nothing is due. */
    method GetOutboundTraffic() returns (r: Option<bytes>)
      requires Valid() && AllPending(scheduler.Pending())
      modifies scheduler`queue, scheduler`items, scheduler`tick, scheduler.queue
      ensures Valid() && forall x :: x in scheduler.queue ==> x in old(scheduler.queue)
      ensures match r
        case None => scheduler.Pending() == old(scheduler.Pending()) && NoneDue(scheduler.Pending(), scheduler.clock(old(scheduler.tick)))
        case Some(data) =>
          exists k: nat ::
            && MayTake(old(scheduler.Pending()), scheduler.clock(old(scheduler.tick)), k)
            && Consistent(old(scheduler.Pending())[k].cell) && data == Encode(old(scheduler.Pending())[k].cell)
            && scheduler.Pending() == Taken(old(scheduler.Pending()), k)
    {
      var cell := scheduler.GetNextCell();
      if cell.None? {
        return None;
      }
      var encoded := framer.EncodeCell(cell.value);
      return Some(encoded);
    }

    /** Decodes a cell and passes it on; a cell of data is observed even when the reassembler then refuses it. */
    method ProcessInboundTraffic(data: bytes) returns (ok: bool)
      requires Valid()
      modifies reassembler, reassembler.streams.Values, this`inboundQueue, this`observationQueue
      ensures Valid()
      ensures match Decode(data)
        case Fail(_) => !ok && unchanged(reassembler) && inboundQueue == old(inboundQueue) && observationQueue == old(observationQueue)
        case Ok(cell) =>
          if cell.typ != TYPE_DATA then
            ok && unchanged(reassembler) && inboundQueue == old(inboundQueue) && observationQueue == old(observationQueue)
          else (
            && Receiver(reassembler.Value(), inboundQueue) == AcceptData(Receiver(old(reassembler.Value()), old(inboundQueue)), cell)
            && (ok <==> Process(old(reassembler.Value()), cell) != Rejected)
            && observationQueue == old(observationQueue) + Observed([cell]))
    {
      var decoded := framer.DecodeCell(data);
      match decoded
      case Fail(_) =>
        return false;
      case Ok(cell) =>
        DecodedNumber(data);
        if cell.typ != TYPE_DATA {
          return true;
        }
        ok := Take(cell);
    }

    /** A cell of data: observed, then reassembled. */
    method Take(cell: Cell) returns (ok: bool)
      requires reassembler.Valid() && cell.seqNo < UINT32
      modifies reassembler, reassembler.streams.Values, this`inboundQueue, this`observationQueue
      ensures reassembler.Valid() && (ok <==> Process(old(reassembler.Value()), cell) != Rejected)
      ensures Receiver(reassembler.Value(), inboundQueue) == AcceptData(Receiver(old(reassembler.Value()), old(inboundQueue)), cell)
      ensures observationQueue == old(observationQueue) + Observed([cell])
    {
      observationQueue := observationQueue + [Classifier.DiscretizePayloadSize(|cell.payload|)];
      ok := PassOn(cell);
    }

    method PassOn(cell: Cell) returns (ok: bool)
      requires reassembler.Valid() && cell.seqNo < UINT32
      modifies reassembler, reassembler.streams.Values, this`inboundQueue
      ensures reassembler.Valid() && (ok <==> Process(old(reassembler.Value()), cell) != Rejected)
      ensures Receiver(reassembler.Value(), inboundQueue) == AcceptData(Receiver(old(reassembler.Value()), old(inboundQueue)), cell)
    {
      var payload;
      ok, payload := reassembler.ProcessCell(cell);
      if payload.Some? {
        inboundQueue := inboundQueue + payload.value;
      }
    }

    method ReadApplicationData() returns (data: bytes)
      modifies this`inboundQueue
      ensures data == old(inboundQueue) && inboundQueue == []
    {
      data := inboundQueue;
      inboundQueue := [];
    }
  }

  lemma DecodedNumber(data: bytes)
    requires Decode(data).Ok?
    ensures Decode(data).value.seqNo < UINT32
  {
    Pow256Of8();
  }
}
