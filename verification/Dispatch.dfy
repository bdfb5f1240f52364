/** The extension's handler registry: exact match on (type, command) first, then the type's wildcard. */
module Dispatch {
  import opened Evm
  import opened HexCodec

  datatype Entry<H> = Entry(opType: string, opCommand: string, handler: H)

  const EMPTY_BYTES32: string := ToHex(Pad([]))

  /** Lower case and prefixed; an empty identifier stands for the empty command. */
  function Normalize(h: string): string
  {
    if h == "" then EMPTY_BYTES32
    else if "0x" <= Lower(h) then Lower(h)
    else "0x" + Lower(h)
  }

  function First<H>(entries: seq<Entry<H>>, t: string, c: string): Option<H>
  {
    if |entries| == 0 then None
    else if entries[0].opType == t && entries[0].opCommand == c then Some(entries[0].handler)
    else First(entries[1..], t, c)
  }

  /** The documented rule. */
  function Dispatched<H>(entries: seq<Entry<H>>, opType: string, opCommand: string): Option<H>
  {
    var exact := First(entries, Normalize(opType), Normalize(opCommand));
    if exact.Some? then exact else First(entries, Normalize(opType), EMPTY_BYTES32)
  }

  predicate KeysDistinct<H>(entries: seq<Entry<H>>)
  {
    forall i, j :: 0 <= i < j < |entries| ==>
      entries[i].opType != entries[j].opType || entries[i].opCommand != entries[j].opCommand
  }

  /** A match is a registered entry; and a registered entry is found, being the only one with its key. */
  lemma {:induction false} FirstDecides<H>(entries: seq<Entry<H>>, t: string, c: string, h: H)
    requires KeysDistinct(entries)
    ensures First(entries, t, c) == Some(h) <==> Entry(t, c, h) in entries
  {
    if |entries| > 0 {
      FirstDecides(entries[1..], t, c, h);
      assert entries == [entries[0]] + entries[1..];
      if Entry(t, c, h) in entries[1..] {
        var k :| 0 <= k < |entries[1..]| && entries[1..][k] == Entry(t, c, h);
        assert entries[k + 1] == Entry(t, c, h);
      }
    }
  }

  /** The handler found is the first registered under the key. */
  lemma {:induction false} FirstIsEarliest<H>(entries: seq<Entry<H>>, t: string, c: string)
    ensures First(entries, t, c).None? <==> forall i :: 0 <= i < |entries| ==>
            entries[i].opType != t || entries[i].opCommand != c
    ensures First(entries, t, c).Some? ==>
              exists i :: 0 <= i < |entries| && entries[i] == Entry(t, c, First(entries, t, c).value)
                          && forall j :: 0 <= j < i ==> entries[j].opType != t || entries[j].opCommand != c
  {
    if |entries| > 0 {
      if entries[0].opType == t && entries[0].opCommand == c {
        assert entries[0] == Entry(t, c, First(entries, t, c).value);
      } else {
        FirstIsEarliest(entries[1..], t, c);
        assert forall j :: 1 <= j < |entries| ==> entries[j] == entries[1..][j - 1];
        if First(entries, t, c).Some? {
          var i :| 0 <= i < |entries[1..]| && entries[1..][i] == Entry(t, c, First(entries, t, c).value)
                   && forall j :: 0 <= j < i ==> entries[1..][j].opType != t || entries[1..][j].opCommand != c;
          assert entries[i + 1] == Entry(t, c, First(entries, t, c).value);
          assert forall j :: 0 <= j < i + 1 ==> j == 0 || entries[j] == entries[1..][j - 1];
        }
      }
    }
  }

  /** A missing command, or type, is looked up as the name of no bytes. */
  lemma MissingIsEmpty<H>(entries: seq<Entry<H>>, t: string, c: string)
    ensures Dispatched(entries, t, "") == Dispatched(entries, t, Identifier([]))
    ensures Dispatched(entries, "", c) == Dispatched(entries, Identifier([]), c)
  {
    NormalizeName([]);
  }

  /** With one handler for each key, the order of registration does not matter. */
  lemma OrderIrrelevant<H>(entries: seq<Entry<H>>, others: seq<Entry<H>>, opType: string, opCommand: string)
    requires KeysDistinct(entries) && KeysDistinct(others)
    requires forall e :: e in entries <==> e in others
    ensures Dispatched(entries, opType, opCommand) == Dispatched(others, opType, opCommand)
  {
    SameFirst(entries, others, Normalize(opType), Normalize(opCommand));
    SameFirst(entries, others, Normalize(opType), EMPTY_BYTES32);
  }

  lemma SameFirst<H>(entries: seq<Entry<H>>, others: seq<Entry<H>>, t: string, c: string)
    requires KeysDistinct(entries) && KeysDistinct(others)
    requires forall e :: e in entries <==> e in others
    ensures First(entries, t, c) == First(others, t, c)
  {
    if First(entries, t, c).Some? {
      FirstDecides(entries, t, c, First(entries, t, c).value);
      FirstDecides(others, t, c, First(entries, t, c).value);
    } else if First(others, t, c).Some? {
      FirstDecides(entries, t, c, First(others, t, c).value);
      FirstDecides(others, t, c, First(others, t, c).value);
    }
  }

  /** Spelling does not matter either: case and the 0x prefix are ignored. */
  lemma SpellingIrrelevant<H>(entries: seq<Entry<H>>, t: string, c: string, t': string, c': string)
    requires t != "" && t' != "" && c != "" && c' != ""
    requires Lower(StripPrefix(t)) == Lower(StripPrefix(t')) && Lower(StripPrefix(c)) == Lower(StripPrefix(c'))
    ensures Dispatched(entries, t, c) == Dispatched(entries, t', c')
  {
    NormalizeStrips(t);
    NormalizeStrips(t');
    NormalizeStrips(c);
    NormalizeStrips(c');
  }

  lemma NormalizeStrips(h: string)
    requires h != ""
    ensures Normalize(h) == "0x" + Lower(StripPrefix(h))
  {
    PrefixDecides(h);
    if HasPrefix(h) {
      assert Lower(h) == "0x" + Lower(h[2..]) by {
        assert Lower(h)[..2] == "0x" && Lower(h)[2..] == Lower(h[2..]);
      }
    }
  }

  predicate HasPrefix(h: string) { |h| >= 2 && h[0] == '0' && (h[1] == 'x' || h[1] == 'X') }

  lemma PrefixDecides(h: string)
    ensures "0x" <= Lower(h) <==> HasPrefix(h)
  {
    if |h| >= 2 {
      LowerPrefix(h[0], h[1]);
      assert "0x" <= Lower(h) <==> Lower(h)[0] == '0' && Lower(h)[1] == 'x';
    }
  }

  lemma LowerPrefix(a: char, b: char)
    ensures LowerChar(a) == '0' <==> a == '0'
    ensures LowerChar(b) == 'x' <==> b == 'x' || b == 'X'
  {
  }

  // ---- Dispatch by name ----

  /** A usable operation name: at most 32 bytes, not ending in a zero byte. */
  predicate Usable(n: seq<uint8>) { |n| <= 32 && NoTrailingZero(n) }

  /** Looking up the identifier of a name yields its own normal form. */
  lemma NormalizeName(n: seq<uint8>)
    requires Usable(n)
    ensures Normalize(ToHex(Pad(n))) == ToHex(Pad(n))
  {
    hide Digits;
    var h := ToHex(Pad(n));
    forall i | 0 <= i < |h| ensures LowerChar(h[i]) == h[i] {
      if i >= 2 {
        DigitsLower(Pad(n), i - 2);
      }
    }
    assert Lower(h) == h;
  }

  datatype Registration<H> = Registration(opType: seq<uint8>, opCommand: seq<uint8>, handler: H)

  function Identifier(n: seq<uint8>): string { if |n| <= 32 then ToHex(Pad(n)) else "" }

  function Entries<H>(rs: seq<Registration<H>>): (es: seq<Entry<H>>)
    ensures |es| == |rs|
    ensures forall i :: 0 <= i < |rs| ==>
            es[i] == Entry(Identifier(rs[i].opType), Identifier(rs[i].opCommand), rs[i].handler)
  {
    seq(|rs|, i requires 0 <= i < |rs| => Entry(Identifier(rs[i].opType), Identifier(rs[i].opCommand), rs[i].handler))
  }

  function FirstNamed<H>(rs: seq<Registration<H>>, t: seq<uint8>, c: seq<uint8>): Option<H>
  {
    if |rs| == 0 then None
    else if rs[0].opType == t && rs[0].opCommand == c then Some(rs[0].handler)
    else FirstNamed(rs[1..], t, c)
  }

  lemma {:induction false} FirstByName<H>(rs: seq<Registration<H>>, t: seq<uint8>, c: seq<uint8>)
    requires forall i :: 0 <= i < |rs| ==> Usable(rs[i].opType) && Usable(rs[i].opCommand)
    requires Usable(t) && Usable(c)
    ensures First(Entries(rs), Identifier(t), Identifier(c)) == FirstNamed(rs, t, c)
  {
    hide ToHex, Pad;
    if |rs| > 0 {
      assert Entries(rs)[1..] == Entries(rs[1..]);
      FirstByName(rs[1..], t, c);
      if Identifier(rs[0].opType) == Identifier(t) { IdentifiersDistinct(rs[0].opType, t); }
      if Identifier(rs[0].opCommand) == Identifier(c) { IdentifiersDistinct(rs[0].opCommand, c); }
    }
  }

  /**
   * On padded names the lookup is exact match on both names, then the handler registered under the type with no
   * command.
   */
  lemma DispatchByName<H>(rs: seq<Registration<H>>, t: seq<uint8>, c: seq<uint8>)
    requires forall i :: 0 <= i < |rs| ==> Usable(rs[i].opType) && Usable(rs[i].opCommand)
    requires Usable(t) && Usable(c)
    ensures Dispatched(Entries(rs), Identifier(t), Identifier(c)) ==
            if FirstNamed(rs, t, c).Some? then FirstNamed(rs, t, c) else FirstNamed(rs, t, [])
  {
    NormalizeName(t);
    NormalizeName(c);
    FirstByName(rs, t, c);
    FirstByName(rs, t, []);
  }

  class Framework<H> {
    var handlers: seq<Entry<H>>

    constructor ()
      ensures handlers == []
    {
      handlers := [];
    }

    /** Names longer than 32 bytes are refused. */
    method Handle(opType: seq<uint8>, opCommand: seq<uint8>, handler: H) returns (refused: Option<HexError>)
      modifies this
      ensures refused.None? <==> |opType| <= 32 && |opCommand| <= 32
      ensures refused.None? ==> handlers == old(handlers) + [Entry(ToHex(Pad(opType)), ToHex(Pad(opCommand)), handler)]
      ensures refused.Some? ==> handlers == old(handlers)
    {
      var t := StringToBytes32Hex(opType);
      if t.Rejected? { return Some(t.error); }
      var c := StringToBytes32Hex(opCommand);
      if c.Rejected? { return Some(c.error); }
      handlers := handlers + [Entry(t.value, c.value, handler)];
      return None;
    }

    method Lookup(opType: string, opCommand: string) returns (found: Option<H>)
      ensures found == Dispatched(handlers, opType, opCommand)
    {
      var t, c := Normalize(opType), Normalize(opCommand);
      var i := 0;
      assert handlers[0..] == handlers;
      while i < |handlers|
        invariant 0 <= i <= |handlers|
        invariant First(handlers, t, c) == First(handlers[i..], t, c)
      {
        if handlers[i].opType == t && handlers[i].opCommand == c { return Some(handlers[i].handler); }
        assert handlers[i..][1..] == handlers[i + 1..];
        i := i + 1;
      }
      i := 0;
      while i < |handlers|
        invariant 0 <= i <= |handlers|
        invariant First(handlers, t, EMPTY_BYTES32) == First(handlers[i..], t, EMPTY_BYTES32)
      {
        if handlers[i].opType == t && handlers[i].opCommand == EMPTY_BYTES32 { return Some(handlers[i].handler); }
        assert handlers[i..][1..] == handlers[i + 1..];
        i := i + 1;
      }
      return None;
    }
  }
}
