/** The in-memory raw event store: heap objects, copied on the way in and on the way out. */
module RawStore {
  import opened Models

  /** A raw event on the heap, as callers pass and receive it. */
  class Record {
    var event: RawEvent

    constructor (event: RawEvent)
      ensures this.event == event
    {
      this.event := event;
    }
  }

  class MemoryRawStore {
    var events: map<string, Record>

    /** The objects the store owns; it hands none of them out. */
    ghost function Owned(): set<Record>
      reads this
    {
      set id | id in events :: events[id]
    }

    ghost function Contents(): map<string, RawEvent>
      reads this, Owned()
    {
      map id | id in events :: events[id].event
    }

    constructor ()
      ensures Contents() == map[]
    {
      events := map[];
    }

    /** Stores a private copy; nil and empty IDs are refused.  The passed object is not kept. */
    method Put(record: Record?) returns (ok: bool)
      modifies this
      ensures ok <==> record != null && record.event.eventId != ""
      ensures Contents() == if ok then old(Contents())[record.event.eventId := record.event] else old(Contents())
      ensures forall o :: o in Owned() ==> o in old(Owned()) || fresh(o)
    {
      if record == null || record.event.eventId == "" {
        return false;
      }
      var copied := new Record(record.event);
      events := events[record.event.eventId := copied];
      ok := true;
    }

    /** A fresh copy of the stored event. */
    method Get(id: string) returns (record: Record?)
      ensures record != null <==> id in Contents()
      ensures record != null ==> fresh(record) && record.event == Contents()[id]
    {
      if id !in events {
        return null;
      }
      record := new Record(events[id].event);
    }
  }

  /** Whatever a caller does to the object it stored or to one it got back, the archive keeps its contents. */
  method CallerKeepsMutating(store: MemoryRawStore, record: Record, id: string, junk: RawEvent)
    requires record !in store.Owned()
    modifies store, record
    ensures store.Contents() == if old(record.event.eventId) == "" then old(store.Contents())
                                else old(store.Contents())[old(record.event.eventId) := old(record.event)]
  {
    var _ := store.Put(record);
    var got := store.Get(id);
    record.event := junk;
    if got != null {
      got.event := junk;
    }
  }
}
