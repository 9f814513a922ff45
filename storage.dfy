/**
 * The single localStorage slot under the key "notes", seen through the only thing the
 * store asks of its JSON text: whether it is empty, and whether it parses back to notes.
 */
module Storage {
  import opened Wrappers
  import opened NoteList

  /** The text held in the slot, abstracted from JSON. */
  datatype Blob =
    | EmptyText               // "": falsy, so never parsed
    | Encoded(items: seq<Note>) // text that JSON.parse turns back into exactly these notes
    | Malformed               // text that JSON.parse rejects

  /** JSON.stringify of a note list: never the empty text, and decoded back losslessly. */
  function Encode(notes: seq<Note>): (b: Blob)
    ensures b != EmptyText
  {
    Encoded(notes)
  }

  /** JSON.parse, failing on text it cannot read. */
  function Decode(b: Blob): (r: Option<seq<Note>>)
    ensures r.Some? ==> Encode(r.value) == b
    ensures b == EmptyText || b == Malformed ==> r.None?
  {
    match b
    case Encoded(items) => Some(items)
    case _ => None
  }

  /** Encoding then decoding gives the list back. */
  lemma DecodeEncode(notes: seq<Note>)
    ensures Decode(Encode(notes)) == Some(notes)
  {
  }
}
