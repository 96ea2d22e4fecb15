/** The advisor note each page persists between runs. Every page keeps one
    slot, which is absent (no file) or holds the last saved content; the file
    system calls that implement it are replaced by a field. */
module Notes {
  import opened Wrappers

  /** The button a run of the page script reacts to. Streamlit reruns the
      whole script on every click, so one run sees at most one click. */
  datatype Action = Idle | SaveClicked | ClearClicked

  /** U+1F4CC PUSHPIN, which both PDF sanitisers delete. */
  const Pushpin: char := '\U{1F4CC}'

  /** The rule and the heading that introduce an advisor note in a report. */
  const Rule: string := "---"
  const NotesHeading: string := " Advisor Notes:"

  /** The heading is printable ASCII, which no sanitiser touches. */
  lemma NotesHeadingPlain()
    ensures forall c :: c in NotesHeading ==> ' ' <= c <= '~' || c == '\n'
  {
  }

  /** One page's persisted note. `T` is what the file holds: plain text, or
      for the risk page a JSON document. */
  class Slot<T> {
    var stored: Option<T>

    /** No note file yet. */
    constructor Empty()
      ensures stored == None
    {
      stored := None;
    }

    /** A note file holding `content`. */
    constructor Holding(content: T)
      ensures stored == Some(content)
    {
      stored := Some(content);
    }

    /** `os.path.exists(path)`. */
    predicate Exists()
      reads this
    {
      stored.Some?
    }

    /** What reading the slot yields, `fallback` when there is no file. */
    function Load(fallback: T): T
      reads this
    {
      stored.GetOr(fallback)
    }

    /** `open(path, "w").write(content)`: overwrites whatever was there, so a
        later load returns exactly `content`. */
    method Save(content: T)
      modifies this
      ensures stored == Some(content)
      ensures forall fallback :: Load(fallback) == content
    {
      stored := Some(content);
    }

    /** `if os.path.exists(path): os.remove(path)`: afterwards there is no
        file; on an absent slot nothing changes. */
    method Clear()
      modifies this
      ensures stored == None
      ensures old(stored) == None ==> stored == old(stored)
      ensures forall fallback :: Load(fallback) == fallback
    {
      if stored.Some? {
        stored := None;
      }
    }
  }

  /** One run of a page's plain-text note panel (the credit, portfolio and
      trend pages): the text area starts from the saved note, or "" without a
      file, unless the user typed something; Save writes the text area's
      content, Clear removes the file and empties the note. The result is the
      note the page goes on with. */
  method TextPanel(slot: Slot<string>, typed: Option<string>, action: Action)
    returns (note: string)
    modifies slot
    ensures action == Idle ==>
      slot.stored == old(slot.stored) && note == typed.GetOr(old(slot.Load("")))
    ensures action == SaveClicked ==>
      note == typed.GetOr(old(slot.Load(""))) && slot.stored == Some(note)
    ensures action == ClearClicked ==> slot.stored == None && note == ""
  {
    var savedNote := slot.Load("");
    note := typed.GetOr(savedNote);
    if action == SaveClicked {
      slot.Save(note);
    } else if action == ClearClicked {
      slot.Clear();
      note := "";
    }
  }
}
