/** The two scripts share one keyboard layout: midiqote sends the virtual
    key codes of the characters bard-on types, position for position. */
module KeyLayout {
  import opened MidiWire
  import Midiqote
  import BardOn

  /** The Windows virtual-key code that types a character of the
      alphabet: letters share the code of their upper case, digits their
      own code, and '.' is VK_OEM_PERIOD. */
  function VirtualKey(c: char): Option<int>
  {
    if 'a' <= c <= 'z' then Some(c as int - 'a' as int + 'A' as int)
    else if '0' <= c <= '9' then Some(c as int)
    else if c == '.' then Some(0xBE)
    else None
  }

  /** Entry i of midiqote's SYMBOLS is the key that types entry i of
      bard-on's alphabet. */
  lemma SameLayout()
    ensures |Midiqote.SYMBOLS| == |BardOn.ALL_SYMBOLS|
    ensures forall i :: 0 <= i < |Midiqote.SYMBOLS| ==>
      VirtualKey(BardOn.ALL_SYMBOLS[i]) == Some(Midiqote.SYMBOLS[i])
  {
    Midiqote.SymbolsLayout();
    BardOn.TablesOverlap();
    var s := BardOn.ALL_SYMBOLS;
    assert forall i :: 0 <= i < 26 ==> s[i] == ('a' as int + i) as char;
    assert forall i :: 26 <= i < 36 ==> s[i] == ('0' as int + i - 26) as char;
  }

  /** Exactly the characters of bard-on's alphabet have a key, and that
      key is one midiqote sends. */
  lemma KeysOfAlphabet(c: char)
    ensures VirtualKey(c).Some? <==> c in BardOn.ALL_SYMBOLS
    ensures VirtualKey(c).Some? ==> VirtualKey(c).value in Midiqote.SYMBOLS
  {
    SameLayout();
    var s := BardOn.ALL_SYMBOLS;
    if VirtualKey(c).Some? {
      var i := if 'a' <= c <= 'z' then c as int - 'a' as int
               else if '0' <= c <= '9' then 26 + c as int - '0' as int
               else 36;
      assert s[i] == c;
    }
  }

  /** Different characters never share a key, so midiqote's keys and
      bard-on's characters correspond one to one. */
  lemma DistinctKeys(c: char, d: char)
    requires c != d && VirtualKey(c).Some? && VirtualKey(d).Some?
    ensures VirtualKey(c) != VirtualKey(d)
  {
  }
}
