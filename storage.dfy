/** The `shortHistory` key of the browser's local storage, with serialisation abstracted away. */
module Storage {
  import opened Wrappers
  import opened Records

  /**
   * What the `shortHistory` key holds: nothing, text that does not parse as JSON,
   * or a serialised list of records.
   */
  datatype Slot = Missing | Corrupt | Saved(records: seq<LinkRecord>)

  /**
   * Reading the key and parsing it, with the empty-list text substituted for a missing key.
   * `None` stands for a parse that throws.
   */
  function Parse(slot: Slot): (r: Option<seq<LinkRecord>>)
    ensures r == None <==> slot.Corrupt?
    ensures slot.Missing? ==> r == Some([])
    ensures slot.Saved? ==> r == Some(slot.records)
  {
    match slot
    case Missing => Some([])
    case Corrupt => None
    case Saved(records) => Some(records)
  }

  /** The initial history: the stored list, or the empty list when the key is missing or the parse throws. */
  function Load(slot: Slot): (h: seq<LinkRecord>)
    ensures slot.Saved? ==> h == slot.records
    ensures !slot.Saved? ==> h == []
  {
    match Parse(slot)
    case Some(records) => records
    case None => []
  }

  /** The one local-storage object both components read and write. */
  class LocalStore {
    var slot: Slot

    constructor (slot: Slot)
      ensures this.slot == slot
    {
      this.slot := slot;
    }
  }
}
