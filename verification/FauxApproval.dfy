/** The notice about a bypassed required key, and the reading of the key back out of it. */
module FauxApproval {
  import opened Basics
  import opened Text

  const LEAD: string := "Recipient bypassed required key '"
  const DELIMITER: string := "' \U{2014} note: \""

  /** The message stored when a required key is bypassed. */
  function Message(key: string, note: string): string {
    if Trim(note) == [] then LEAD + key + "'"
    else LEAD + key + DELIMITER + Trim(note) + "\""
  }

  predicate OccursAt(needle: string, s: string, i: nat) {
    i + |needle| <= |s| && s[i..i + |needle|] == needle
  }

  predicate Contains(s: string, needle: string) {
    exists i | 0 <= i <= |s| :: OccursAt(needle, s, i)
  }

  /** The first occurrence of `needle` at or after `from`. */
  function FindFrom(s: string, needle: string, from: nat): (r: Option<nat>)
    requires from <= |s|
    ensures r.Some? ==> from <= r.value && OccursAt(needle, s, r.value)
    ensures r.Some? ==> forall i | from <= i < r.value :: !OccursAt(needle, s, i)
    ensures r.None? ==> forall i | from <= i <= |s| :: !OccursAt(needle, s, i)
    decreases |s| - from
  {
    if OccursAt(needle, s, from) then Some(from)
    else if from == |s| then None
    else FindFrom(s, needle, from + 1)
  }

  /** `faux_approval_key` */
  function KeyOf(message: string): Option<string> {
    if !(LEAD <= message) then None
    else
      var rest := message[|LEAD|..];
      match FindFrom(rest, DELIMITER, 0)
      case Some(i) => Some(rest[..i])
      case None =>
        if rest != [] && rest[|rest| - 1] == '\'' then Some(rest[..|rest| - 1]) else None
  }

  lemma QuoteStartsDelimiterOnly(offset: nat)
    requires 0 < offset < |DELIMITER|
    ensures DELIMITER[offset] != '\''
  {
  }

  /** An occurrence that reaches past the key covers the first character after it. */
  lemma CoversNext(key: string, tail: string, i: nat)
    requires tail != [] && i < |key| < i + |DELIMITER| && OccursAt(DELIMITER, key + tail, i)
    ensures DELIMITER[|key| - i] == tail[0]
  {
    assert (key + tail)[i..i + |DELIMITER|][|key| - i] == (key + tail)[|key|];
  }

  /** The first character of the delimiter occurs nowhere else in it, so no occurrence of the
      delimiter starts inside the key and ends beyond it. */
  lemma NoStraddling(key: string, tail: string, i: nat)
    requires tail != [] && tail[0] == '\'' && i < |key| && OccursAt(DELIMITER, key + tail, i)
    ensures OccursAt(DELIMITER, key, i)
  {
    if i + |DELIMITER| > |key| {
      CoversNext(key, tail, i);
      QuoteStartsDelimiterOnly(|key| - i);
    } else {
      assert (key + tail)[i..i + |DELIMITER|] == key[i..i + |DELIMITER|];
    }
  }

  lemma OccurrenceInKey(key: string, tail: string, i: nat)
    requires OccursAt(DELIMITER, key, i)
    ensures OccursAt(DELIMITER, key + tail, i)
  {
    assert (key + tail)[i..i + |DELIMITER|] == key[i..i + |DELIMITER|];
  }

  /** What comes after the key in its message. */
  function Tail(note: string): string {
    if Trim(note) == [] then "'" else DELIMITER + Trim(note) + "\""
  }

  lemma Associates(a: string, b: string, c: string)
    ensures (a + b) + c == a + (b + c) && a <= a + (b + c) && (a + (b + c))[|a|..] == b + c
  {
  }

  lemma MessageSplits(key: string, note: string)
    ensures LEAD <= Message(key, note) && Message(key, note)[|LEAD|..] == key + Tail(note)
  {
    hide Trim;
    Associates(LEAD, key, Tail(note));
    if Trim(note) != [] {
      Associates(LEAD + key, DELIMITER, Trim(note));
      Associates(LEAD + key, DELIMITER + Trim(note), "\"");
    }
  }

  lemma BlankTail(key: string, note: string)
    requires Trim(note) == []
    ensures var rest := key + Tail(note); rest != [] && rest[|rest| - 1] == '\'' && rest[..|rest| - 1] == key
  {
  }

  lemma KeyOfMessage(key: string, note: string)
    ensures KeyOf(Message(key, note))
         == match FindFrom(key + Tail(note), DELIMITER, 0)
            case Some(i) => Some((key + Tail(note))[..i])
            case None => if Trim(note) == [] then Some(key) else None
  {
    hide FindFrom, OccursAt, Message, Tail, Trim;
    MessageSplits(key, note);
    if Trim(note) == [] { BlankTail(key, note); } else { TailOccurs(key, note); }
  }

  /** The first occurrence is inside the key if the key has one, and right after it otherwise. */
  lemma FirstOccurrence(key: string, tail: string)
    requires tail != [] && tail[0] == '\''
    ensures var found := FindFrom(key + tail, DELIMITER, 0);
            if Contains(key, DELIMITER) then found.Some? && found.value < |key|
            else (found.Some? ==> found.value + |DELIMITER| <= |key| + |tail|) && (found.Some? ==> found.value >= |key|)
                 && (OccursAt(DELIMITER, key + tail, |key|) ==> found == Some(|key|))
  {
    hide FindFrom;
    if Contains(key, DELIMITER) {
      var i :| 0 <= i <= |key| && OccursAt(DELIMITER, key, i);
      OccurrenceInKey(key, tail, i);
    } else {
      forall i | 0 <= i < |key| ensures !OccursAt(DELIMITER, key + tail, i) {
        if OccursAt(DELIMITER, key + tail, i) { NoStraddling(key, tail, i); }
      }
    }
  }

  lemma TailOccurs(key: string, note: string)
    ensures Tail(note) != [] && Tail(note)[0] == '\''
    ensures Trim(note) != [] ==> OccursAt(DELIMITER, key + Tail(note), |key|)
    ensures Trim(note) == [] ==> |Tail(note)| < |DELIMITER|
  {
    if Trim(note) != [] {
      assert (key + Tail(note))[|key|..|key| + |DELIMITER|] == DELIMITER;
    }
  }

  /** The key is read back from every message printed for it, whatever the note, exactly when
      the key does not itself contain the delimiter. */
  lemma KeyIsRecovered(key: string, note: string)
    ensures KeyOf(Message(key, note)) == Some(key) <==> !Contains(key, DELIMITER)
  {
    hide KeyOf, Message, Contains, FindFrom, OccursAt, Tail;
    KeyOfMessage(key, note);
    TailOccurs(key, note);
    FirstOccurrence(key, Tail(note));
    assert (key + Tail(note))[..|key|] == key;
  }

  lemma FoundAtTheStart(needle: string, tail: string)
    ensures FindFrom(needle + tail, needle, 0) == Some(0)
  {
    assert (needle + tail)[0..|needle|] == needle;
  }

  lemma LeadIsSkipped(lead: string, rest: string)
    ensures lead <= lead + rest && (lead + rest)[|lead|..] == rest
  {
  }

  /** The delimiter itself is a key that is not read back: the reading finds the empty key. */
  lemma DelimiterIsNotRecovered(note: string)
    ensures KeyOf(Message(DELIMITER, note)) == Some("") && DELIMITER != ""
  {
    hide FindFrom, Trim;
    var tail := if Trim(note) == [] then "'" else DELIMITER + Trim(note) + "\"";
    assert Message(DELIMITER, note) == LEAD + (DELIMITER + tail);
    LeadIsSkipped(LEAD, DELIMITER + tail);
    FoundAtTheStart(DELIMITER, tail);
    assert (DELIMITER + tail)[..0] == "";
  }

  /** What a notice says. */
  lemma MessageReads(key: string, note: string)
    ensures Trim(note) == "" ==> Message(key, note) == "Recipient bypassed required key '" + key + "'"
    ensures Trim(note) != "" ==>
              Message(key, note) == "Recipient bypassed required key '" + key + "' \U{2014} note: \"" + Trim(note) + "\""
  {
  }
}
