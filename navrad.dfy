/**
 * The bookkeeping of the simulated nav radios: the Morse identifier of each
 * tuned VOR/DME encoded as 110 on/off audio chunks of 100 ms, the per-radio
 * sets of navaids in range (refreshed from a database query), the choice of
 * the strongest navaid, and the audio chunk cursor advanced on every audio
 * buffer.
 *
 * Navaids are identified by their handle in the navaid database, standing
 * for the `navaid_t` pointer the C trees compare.
 */
module NavRadio {
  import opened Common
  import NavaidDb
  import Crc64

  /** Chunks in one 11 second identifier cycle. */
  const NumChunks: nat := 110
  /** Only this many identifier characters are keyed. */
  const MaxIdChars: nat := 5
  /** A navaid below this level is not received at all. */
  const NoiseFloorSignal: real := -65.0
  /** Two navaids closer than this in level garble each other. */
  const InterferenceLimit: real := 16.0

  // ---------------------------------------------------------------------
  // Morse identifier
  // ---------------------------------------------------------------------

  /** `morse_table`: digits 0-9, then letters A-Z; '0' is a dash, '1' a dot. */
  const MorseTable: seq<string> := [
    "00000", "10000", "11000", "11100", "11110", "11111", "01111", "00111", "00011", "00001",
    "10", "0111", "0101", "011", "1", "1101", "001", "1111", "11", "1000",
    "010", "1011", "00", "01", "000", "1001", "0010", "101", "111", "0",
    "110", "1110", "100", "0110", "0100", "0011"]

  /** One to five symbols, each a dash or a dot. */
  predicate IsCode(s: string)
  {
    1 <= |s| <= 5 && forall k :: 0 <= k < |s| ==> s[k] == '0' || s[k] == '1'
  }

  /** Every entry of the table is a Morse code of at most five symbols. */
  lemma MorseTableCodes()
    ensures |MorseTable| == 36
    ensures forall i :: 0 <= i < 36 ==> IsCode(MorseTable[i])
  {
  }

  /** The table entry for an identifier character; None for characters outside 0-9 and A-Z. */
  function MorseCode(c: char): (r: Option<string>)
    ensures r.Some? <==> ('0' <= c <= '9' || 'A' <= c <= 'Z')
    ensures r.Some? ==> IsCode(r.value)
  {
    MorseTableCodes();
    if '0' <= c <= '9' then Some(MorseTable[c as int - '0' as int])
    else if 'A' <= c <= 'Z' then Some(MorseTable[c as int - 'A' as int + 10])
    else None
  }

  /** One symbol: a dash is three on-chunks (300 ms), a dot one; then one off-chunk. */
  function SymbolChunks(sym: char): (r: seq<int>)
  {
    if sym == '0' then [1, 1, 1, 0] else [1, 0]
  }

  /** The chunks of the symbols of one code, in order. */
  function SymbolsChunks(code: string): (r: seq<int>)
  {
    if |code| == 0 then [] else SymbolsChunks(code[..|code| - 1]) + SymbolChunks(code[|code| - 1])
  }

  /** One letter: its symbols, then one more off-chunk between letters. */
  function LetterChunks(code: string): (r: seq<int>)
  {
    SymbolsChunks(code) + [0]
  }

  /** The chunks of one identifier character: its letter, or nothing when it has no Morse code. */
  function CharChunks(c: char): (r: seq<int>)
    ensures r == [] <==> MorseCode(c).None?
    ensures r != [] ==> r[|r| - 1] == 0
  {
    match MorseCode(c)
    case None => []
    case Some(code) => LetterChunks(code)
  }

  /** The chunks of an identifier, skipping characters that have no Morse code. */
  function IdChunks(id: string): (r: seq<int>)
    ensures r == [] || r[|r| - 1] == 0
  {
    if |id| == 0 then [] else IdChunks(id[..|id| - 1]) + CharChunks(id[|id| - 1])
  }

  /** Every chunk is keyed on (1) or off (0). */
  predicate OnOff(s: seq<int>)
  {
    forall k :: 0 <= k < |s| ==> s[k] == 0 || s[k] == 1
  }

  lemma OnOffAppend(a: seq<int>, b: seq<int>)
    requires OnOff(a) && OnOff(b)
    ensures OnOff(a + b)
  {
  }

  lemma {:induction false} SymbolsChunksOnOff(code: string)
    ensures OnOff(SymbolsChunks(code))
  {
    if |code| > 0 {
      SymbolsChunksOnOff(code[..|code| - 1]);
      OnOffAppend(SymbolsChunks(code[..|code| - 1]), SymbolChunks(code[|code| - 1]));
    }
  }

  /** An identifier keys nothing but on- and off-chunks. */
  lemma {:induction false} IdChunksOnOff(id: string)
    ensures OnOff(IdChunks(id))
  {
    if |id| > 0 {
      IdChunksOnOff(id[..|id| - 1]);
      var c := id[|id| - 1];
      if MorseCode(c).Some? {
        SymbolsChunksOnOff(MorseCode(c).value);
        OnOffAppend(SymbolsChunks(MorseCode(c).value), [0]);
      }
      OnOffAppend(IdChunks(id[..|id| - 1]), CharChunks(c));
    }
  }

  /** An identifier keys nothing exactly when none of its characters has a Morse code. */
  lemma {:induction false} IdChunksSilent(id: string)
    ensures IdChunks(id) == [] <==> forall k :: 0 <= k < |id| ==> MorseCode(id[k]).None?
  {
    if |id| > 0 {
      var init, c := id[..|id| - 1], id[|id| - 1];
      IdChunksSilent(init);
      assert id == init + [c];
      var rest := IdChunks(init);
      assert IdChunks(id) == rest + CharChunks(c);
      assert IdChunks(id) == [] <==> rest == [] && CharChunks(c) == [];
    }
  }

  /** Keying one more character appends its chunks. */
  lemma IdChunksSnoc(id: string, i: nat)
    requires i < |id|
    ensures IdChunks(id[..i + 1]) == IdChunks(id[..i]) + CharChunks(id[i])
  {
    assert id[..i + 1][..i] == id[..i];
  }

  /** A symbol takes at most four chunks. */
  lemma {:induction false} SymbolsChunksLength(code: string)
    ensures |SymbolsChunks(code)| <= 4 * |code|
  {
    if |code| > 0 {
      SymbolsChunksLength(code[..|code| - 1]);
    }
  }

  /** A character takes at most 21 chunks: five dashes and the letter gap. */
  lemma {:induction false} IdChunksLength(id: string)
    ensures |IdChunks(id)| <= 21 * |id|
  {
    if |id| > 0 {
      IdChunksLength(id[..|id| - 1]);
      CharChunksLength(id[|id| - 1]);
    }
  }

  lemma CharChunksLength(c: char)
    ensures |CharChunks(c)| <= 21
  {
    match MorseCode(c)
    case None =>
    case Some(code) => SymbolsChunksLength(code);
  }

  /** The keyed part of an identifier: its first five characters. */
  function KeyedId(id: string): (r: string)
    ensures |r| <= MaxIdChars && |r| <= |id| && r == id[..|r|]
  {
    if |id| <= MaxIdChars then id else id[..MaxIdChars]
  }

  /** The full 110-chunk cycle: the keyed identifier, then silence. */
  function Encoding(id: string): (r: seq<int>)
    ensures |r| == NumChunks
  {
    var on := IdChunks(KeyedId(id));
    IdChunksLength(KeyedId(id));
    on + seq(NumChunks - |on|, _ => 0)
  }

  /** Whatever the identifier, its keying ends before the last chunk, so every cycle has a pause. */
  lemma EncodingLeavesPause(id: string)
    ensures |IdChunks(KeyedId(id))| <= 105 < NumChunks
    ensures forall k :: 105 <= k < NumChunks ==> Encoding(id)[k] == 0
  {
    IdChunksLength(KeyedId(id));
  }

  /** Only the first five characters are keyed. */
  lemma EncodingUsesFiveChars(id: string, suffix: string)
    requires |id| >= MaxIdChars
    ensures Encoding(id + suffix) == Encoding(id)
  {
    assert (id + suffix)[..MaxIdChars] == id[..MaxIdChars];
  }

  /** A character outside 0-9 and A-Z is skipped without leaving a gap. */
  lemma SkippedCharAddsNothing(id: string, c: char)
    requires MorseCode(c).None?
    ensures IdChunks(id + [c]) == IdChunks(id)
  {
    assert (id + [c])[..|id|] == id;
  }

  /**
   * Every letter starts with an on-chunk and ends with two off-chunks (the
   * gap after its last symbol and the gap between letters), so consecutive
   * letters never run together.
   */
  lemma {:induction false} LetterFraming(code: string)
    requires |code| > 0
    ensures var r := LetterChunks(code);
      |r| >= 3 && r[0] == 1 && r[|r| - 2] == 0 && r[|r| - 1] == 0
  {
    if |code| == 1 {
      assert SymbolsChunks(code) == SymbolChunks(code[0]);
    } else {
      LetterFraming(code[..|code| - 1]);
      var init := SymbolsChunks(code[..|code| - 1]);
      assert init[0] == 1;
    }
  }

  /** Dash and dot on-chunk counts: three per dash, one per dot. */
  function OnCount(r: seq<int>): nat
  {
    if |r| == 0 then 0 else OnCount(r[..|r| - 1]) + (if r[|r| - 1] != 0 then 1 else 0)
  }

  function Dashes(code: string): nat
  {
    if |code| == 0 then 0 else Dashes(code[..|code| - 1]) + (if code[|code| - 1] == '0' then 1 else 0)
  }

  lemma {:induction false} OnCountAppend(a: seq<int>, b: seq<int>)
    ensures OnCount(a + b) == OnCount(a) + OnCount(b)
  {
    if |b| > 0 {
      assert (a + b)[..|a + b| - 1] == a + b[..|b| - 1];
      OnCountAppend(a, b[..|b| - 1]);
    } else {
      assert a + b == a;
    }
  }

  lemma SymbolOnChunks(sym: char)
    ensures OnCount(SymbolChunks(sym)) == if sym == '0' then 3 else 1
  {
    assert [1][..0] == [];
    assert [1, 0][..1] == [1];
    assert [1, 1][..1] == [1];
    assert [1, 1, 1][..2] == [1, 1];
    assert [1, 1, 1, 0][..3] == [1, 1, 1];
  }

  /** A letter keys three on-chunks per dash and one per dot. */
  lemma {:induction false} LetterOnChunks(code: string)
    ensures OnCount(LetterChunks(code)) == 3 * Dashes(code) + (|code| - Dashes(code))
  {
    if |code| > 0 {
      var init := code[..|code| - 1];
      LetterOnChunks(init);
      OnCountAppend(SymbolsChunks(init), [0]);
      OnCountAppend(SymbolsChunks(init), SymbolChunks(code[|code| - 1]));
      OnCountAppend(SymbolsChunks(code), [0]);
      SymbolOnChunks(code[|code| - 1]);
    } else {
      assert LetterChunks(code) == [0];
      assert [0][..0] == [];
    }
  }

  /** A cycle that starts with the keyed identifier and is silent after it is the encoding. */
  lemma EncodingOf(id: string, a: seq<int>, j: nat)
    requires |a| == NumChunks && j <= NumChunks
    requires a[..j] == IdChunks(KeyedId(id))
    requires forall m :: j <= m < NumChunks ==> a[m] == 0
    ensures a == Encoding(id)
  {
    assert a == a[..j] + a[j..];
    assert a[j..] == seq(NumChunks - j, _ => 0);
  }

  /**
   * `audio_buf_chunks_encode`: clear all 110 chunks, then key each of the
   * first five identifier characters that has a Morse code.
   */
  method EncodeChunks(id: string) returns (chunks: array<int>)
    ensures fresh(chunks)
    ensures chunks[..] == Encoding(id)
  {
    chunks := new int[NumChunks](_ => 0);
    var j := KeyId(chunks, KeyedId(id));
    EncodingOf(id, chunks[..], j);
  }

  /** The character loop of `audio_buf_chunks_encode`: key each character of `keyed` into cleared chunks. */
  method KeyId(chunks: array<int>, keyed: string) returns (j: nat)
    requires chunks.Length == NumChunks && |keyed| <= MaxIdChars
    requires forall m :: 0 <= m < NumChunks ==> chunks[m] == 0
    modifies chunks
    ensures j <= NumChunks && chunks[..j] == IdChunks(keyed)
    ensures forall m :: j <= m < NumChunks ==> chunks[m] == 0
  {
    j := 0;
    var i := 0;
    while i < |keyed|
      invariant 0 <= i <= |keyed|
      invariant j == |IdChunks(keyed[..i])| <= 21 * i
      invariant chunks[..j] == IdChunks(keyed[..i])
      invariant forall m :: j <= m < NumChunks ==> chunks[m] == 0
    {
      IdChunksSnoc(keyed, i);
      j := KeyChar(chunks, j, keyed[i]);
      i := i + 1;
    }
    assert keyed[..i] == keyed;
  }

  /** One pass of the character loop of `audio_buf_chunks_encode`: key character `c` from chunk `j0` on. */
  method KeyChar(chunks: array<int>, j0: nat, c: char) returns (j: nat)
    requires chunks.Length == NumChunks
    requires j0 + 21 <= NumChunks
    requires forall m :: j0 <= m < NumChunks ==> chunks[m] == 0
    modifies chunks
    ensures j == j0 + |CharChunks(c)| <= j0 + 21
    ensures chunks[..j] == old(chunks[..j0]) + CharChunks(c)
    ensures forall m :: j <= m < NumChunks ==> chunks[m] == 0
  {
    CharChunksLength(c);
    var code := MorseCode(c);
    if code.Some? {
      j := KeyLetter(chunks, j0, code.value);
    } else {
      j := j0;
      assert CharChunks(c) == [];
    }
  }

  /** The letter loop of `audio_buf_chunks_encode`: key one letter's symbols from chunk `j0` on. */
  method KeyLetter(chunks: array<int>, j0: nat, code: string) returns (j: nat)
    requires chunks.Length == NumChunks && IsCode(code)
    requires j0 + 21 <= NumChunks
    requires forall m :: j0 <= m < NumChunks ==> chunks[m] == 0
    modifies chunks
    ensures j == j0 + |LetterChunks(code)| <= j0 + 21
    ensures chunks[..j] == old(chunks[..j0]) + LetterChunks(code)
    ensures forall m :: j <= m < NumChunks ==> chunks[m] == 0
  {
    j := j0;
    var k := 0;
    while k < |code|
      invariant 0 <= k <= |code|
      invariant j == j0 + |SymbolsChunks(code[..k])| <= j0 + 4 * k
      invariant chunks[..j] == old(chunks[..j0]) + SymbolsChunks(code[..k])
      invariant forall m :: j <= m < NumChunks ==> chunks[m] == 0
    {
      assert code[..k + 1][..k] == code[..k];
      assert SymbolsChunks(code[..k + 1]) == SymbolsChunks(code[..k]) + SymbolChunks(code[k]);
      SymbolsChunksLength(code[..k]);
      ghost var soFar := chunks[..j];
      j := KeySymbol(chunks, j, code[k]);
      assert chunks[..j] == soFar + SymbolChunks(code[k]);
      k := k + 1;
    }
    assert code[..k] == code;
    ghost var before := chunks[..j];
    j := j + 1;
    assert chunks[..j] == before + [0];
  }

  /** One symbol of the letter loop: a dash writes three on-chunks, a dot one, and the gap is skipped. */
  method KeySymbol(chunks: array<int>, j0: nat, sym: char) returns (j: nat)
    requires chunks.Length == NumChunks && j0 + 4 <= NumChunks
    requires forall m :: j0 <= m < NumChunks ==> chunks[m] == 0
    modifies chunks
    ensures j == j0 + |SymbolChunks(sym)|
    ensures chunks[..j] == old(chunks[..j0]) + SymbolChunks(sym)
    ensures forall m :: j <= m < NumChunks ==> chunks[m] == 0
  {
    j := j0;
    if sym == '0' {
      chunks[j] := 1;
      chunks[j + 1] := 1;
      chunks[j + 2] := 1;
      j := j + 3;
    } else {
      chunks[j] := 1;
      j := j + 1;
    }
    j := j + 1;
    assert chunks[..j] == old(chunks[..j0]) + chunks[j0..j];
  }

  // ---------------------------------------------------------------------
  // Navaids in range
  // ---------------------------------------------------------------------

  /**
   * A `radio_navaid_t`: the navaid, its smoothed and target signal levels
   * in dB, the refresh mark, the identifier chunks and the chunk cursor.
   */
  datatype RadioNavaid = RadioNavaid(nav: nat, signalDb: real, signalDbTgt: real, outdated: bool,
                                     chunks: seq<int>, cur: nat)

  /** A full chunk cycle and a cursor inside it. */
  predicate EntryOk(e: RadioNavaid)
  {
    |e.chunks| == NumChunks && e.cur < NumChunks
  }

  /** The tree order: strictly increasing navaid, so each navaid appears once. */
  predicate Sorted(s: seq<RadioNavaid>)
  {
    forall i, j :: 0 <= i < j < |s| ==> s[i].nav < s[j].nav
  }

  predicate TreeOk(s: seq<RadioNavaid>)
  {
    Sorted(s) && forall i :: 0 <= i < |s| ==> EntryOk(s[i])
  }

  /** The navaids held. */
  function Handles(s: seq<RadioNavaid>): set<nat>
  {
    set i | 0 <= i < |s| :: s[i].nav
  }

  /** The navaids a query returned. */
  function QuerySet(q: seq<nat>): set<nat>
  {
    set i | 0 <= i < |q| :: q[i]
  }

  /** The entry for navaid `h`, if held. */
  function Lookup(s: seq<RadioNavaid>, h: nat): (r: Option<RadioNavaid>)
    ensures r.Some? ==> r.value in s && r.value.nav == h
    ensures r.None? ==> h !in Handles(s)
  {
    if |s| == 0 then None
    else if s[|s| - 1].nav == h then Some(s[|s| - 1])
    else
      var r := Lookup(s[..|s| - 1], h);
      assert Handles(s) == Handles(s[..|s| - 1]) + {s[|s| - 1].nav};
      r
  }

  /** In a sorted tree an entry is the one `Lookup` finds for its navaid. */
  lemma {:induction false} LookupSorted(s: seq<RadioNavaid>, i: nat)
    requires Sorted(s) && i < |s|
    ensures Lookup(s, s[i].nav) == Some(s[i])
  {
    if i < |s| - 1 {
      LookupSorted(s[..|s| - 1], i);
    }
  }

  /** A navaid that is not held has no entry in any position. */
  lemma NotHeld(s: seq<RadioNavaid>, h: nat)
    requires h !in Handles(s)
    ensures forall i :: 0 <= i < |s| ==> s[i].nav != h
  {
  }

  /** The entries still marked current, in order. */
  function KeepCurrent(s: seq<RadioNavaid>): (r: seq<RadioNavaid>)
    ensures forall x :: x in r <==> x in s && !x.outdated
  {
    if |s| == 0 then []
    else KeepCurrent(s[..|s| - 1]) + (if s[|s| - 1].outdated then [] else [s[|s| - 1]])
  }

  /** Dropping entries keeps the tree order. */
  lemma {:induction false} KeepCurrentSorted(s: seq<RadioNavaid>)
    requires TreeOk(s)
    ensures TreeOk(KeepCurrent(s))
  {
    if |s| > 0 {
      var init := s[..|s| - 1];
      KeepCurrentSorted(init);
      var r := KeepCurrent(s);
      var k := KeepCurrent(init);
      forall i, j | 0 <= i < j < |r| ensures r[i].nav < r[j].nav {
        if j == |k| {
          assert r[i] in init;
        }
      }
    }
  }

  /** The navaids of a query prefix grow one at a time. */
  lemma QuerySetSnoc(q: seq<nat>, n: nat)
    requires n < |q|
    ensures QuerySet(q[..n + 1]) == QuerySet(q[..n]) + {q[n]}
  {
    assert forall i :: 0 <= i < n ==> q[..n + 1][i] == q[..n][i];
    assert q[..n + 1][n] == q[n];
  }

  /** A navaid first seen by a refresh: freshly keyed identifier, no signal yet. */
  predicate NewEntry(e: RadioNavaid, pool: map<nat, NavaidDb.Navaid>)
  {
    e.nav in pool && e.chunks == Encoding(pool[e.nav].id)
    && e.signalDb == 0.0 && e.signalDbTgt == 0.0
  }

  /**
   * What an entry after a refresh holds: for a navaid the tree had before
   * (`prev`), its previous entry with only the mark changed; otherwise a new
   * entry.
   */
  predicate Carried(e: RadioNavaid, prev: seq<RadioNavaid>, pool: map<nat, NavaidDb.Navaid>)
  {
    match Lookup(prev, e.nav)
    case Some(o) => e == o.(outdated := e.outdated)
    case None => NewEntry(e, pool)
  }

  /** Where each entry of the tree lands when `e` is inserted at `p`. */
  lemma InsertIndex(s: seq<RadioNavaid>, p: nat, e: RadioNavaid)
    requires p <= |s|
    ensures |s[..p] + [e] + s[p..]| == |s| + 1
    ensures forall i :: 0 <= i < p ==> (s[..p] + [e] + s[p..])[i] == s[i]
    ensures (s[..p] + [e] + s[p..])[p] == e
    ensures forall i :: p < i <= |s| ==> (s[..p] + [e] + s[p..])[i] == s[i - 1]
  {
  }

  /** Inserting at the position the search found keeps the order and adds the navaid. */
  lemma InsertAt(s: seq<RadioNavaid>, p: nat, e: RadioNavaid)
    requires TreeOk(s) && EntryOk(e) && p <= |s|
    requires forall i :: 0 <= i < p ==> s[i].nav < e.nav
    requires forall i :: p <= i < |s| ==> s[i].nav > e.nav
    ensures TreeOk(s[..p] + [e] + s[p..])
    ensures Handles(s[..p] + [e] + s[p..]) == Handles(s) + {e.nav}
  {
    var r := s[..p] + [e] + s[p..];
    InsertIndex(s, p, e);
    forall i, j | 0 <= i < j < |r| ensures r[i].nav < r[j].nav {
      if j < p {
        assert s[i].nav < s[j].nav;
      } else if j > p && i > p {
        assert s[i - 1].nav < s[j - 1].nav;
      } else if j > p && i < p {
        assert s[i].nav < s[j - 1].nav;
      }
    }
    forall h | h in Handles(s) ensures h in Handles(r) {
      var i :| 0 <= i < |s| && s[i].nav == h;
      if i < p { assert r[i] == s[i]; } else { assert r[i + 1] == s[i]; }
    }
    forall h | h in Handles(r) ensures h in Handles(s) + {e.nav} {
      var i :| 0 <= i < |r| && r[i].nav == h;
      if i < p { assert r[i] == s[i]; } else if i > p { assert r[i] == s[i - 1]; }
    }
  }

  /** Changing the mark of entry `p` keeps the tree and the navaids. */
  lemma Remark(s: seq<RadioNavaid>, p: nat, mark: bool)
    requires TreeOk(s) && p < |s|
    ensures TreeOk(s[p := s[p].(outdated := mark)])
    ensures Handles(s[p := s[p].(outdated := mark)]) == Handles(s)
  {
    var r := s[p := s[p].(outdated := mark)];
    assert forall i :: 0 <= i < |s| ==> r[i].nav == s[i].nav;
  }

  /**
   * The tree part-way through the middle loop of a refresh that started
   * from `before`, once the navaids in `seen` have been looked up: it holds
   * the old navaids and the seen ones, exactly the seen ones are marked
   * current, and every entry is carried over or new.
   */
  predicate Progress(s: seq<RadioNavaid>, before: seq<RadioNavaid>, seen: set<nat>,
                     pool: map<nat, NavaidDb.Navaid>)
  {
    TreeOk(s) && Handles(s) == Handles(before) + seen
    && forall i :: 0 <= i < |s| ==> (s[i].outdated <==> s[i].nav !in seen) && Carried(s[i], before, pool)
  }

  /** Marking every entry outdated starts the refresh with nothing seen. */
  lemma ProgressStart(before: seq<RadioNavaid>, marked: seq<RadioNavaid>, pool: map<nat, NavaidDb.Navaid>)
    requires TreeOk(before) && TreeOk(marked) && |marked| == |before|
    requires forall i :: 0 <= i < |marked| ==> marked[i] == before[i].(outdated := true)
    ensures Progress(marked, before, {}, pool)
  {
    assert Handles(marked) == Handles(before) by {
      assert forall i :: 0 <= i < |marked| ==> marked[i].nav == before[i].nav;
    }
    forall i | 0 <= i < |marked| ensures Carried(marked[i], before, pool) {
      LookupSorted(before, i);
    }
  }

  /** Inserting a new navaid where the search left off advances the refresh by that navaid. */
  lemma ProgressInsert(s: seq<RadioNavaid>, p: nat, e: RadioNavaid, before: seq<RadioNavaid>,
                       seen: set<nat>, pool: map<nat, NavaidDb.Navaid>)
    requires Progress(s, before, seen, pool) && p <= |s|
    requires EntryOk(e) && !e.outdated && e.nav !in Handles(before) && NewEntry(e, pool)
    requires forall i :: 0 <= i < p ==> s[i].nav < e.nav
    requires forall i :: p <= i < |s| ==> s[i].nav > e.nav
    ensures Progress(s[..p] + [e] + s[p..], before, seen + {e.nav}, pool)
  {
    InsertAt(s, p, e);
    var r := s[..p] + [e] + s[p..];
    forall i | 0 <= i < |r|
      ensures (r[i].outdated <==> r[i].nav !in seen + {e.nav}) && Carried(r[i], before, pool)
    {
      if i < p {
        assert r[i] == s[i];
      } else if i > p {
        assert r[i] == s[i - 1];
      } else {
        assert Lookup(before, e.nav).None?;
      }
    }
  }

  /** Marking a held navaid current advances the refresh by that navaid. */
  lemma ProgressRemark(s: seq<RadioNavaid>, p: nat, before: seq<RadioNavaid>,
                       seen: set<nat>, pool: map<nat, NavaidDb.Navaid>)
    requires Progress(s, before, seen, pool) && p < |s|
    ensures Progress(s[p := s[p].(outdated := false)], before, seen + {s[p].nav}, pool)
  {
    Remark(s, p, false);
    var r := s[p := s[p].(outdated := false)];
    forall i | 0 <= i < |r|
      ensures (r[i].outdated <==> r[i].nav !in seen + {s[p].nav}) && Carried(r[i], before, pool)
    {
      if i != p {
        if i < p { assert s[i].nav < s[p].nav; }
        else { assert s[p].nav < s[i].nav; }
      }
    }
  }

  /** Dropping what was not seen leaves exactly the seen navaids, all current and carried. */
  lemma ProgressDone(s: seq<RadioNavaid>, before: seq<RadioNavaid>, seen: set<nat>,
                     pool: map<nat, NavaidDb.Navaid>)
    requires Progress(s, before, seen, pool)
    ensures TreeOk(KeepCurrent(s)) && Handles(KeepCurrent(s)) == seen
    ensures forall i :: 0 <= i < |KeepCurrent(s)| ==>
              !KeepCurrent(s)[i].outdated && Carried(KeepCurrent(s)[i], before, pool)
  {
    KeepCurrentSorted(s);
    KeptCarried(s, before, seen, pool);
    KeptHandles(s, before, seen, pool);
  }

  /** The entries kept are current and carried over from before the refresh. */
  lemma KeptCarried(s: seq<RadioNavaid>, before: seq<RadioNavaid>, seen: set<nat>,
                    pool: map<nat, NavaidDb.Navaid>)
    requires Progress(s, before, seen, pool)
    ensures forall i :: 0 <= i < |KeepCurrent(s)| ==>
              !KeepCurrent(s)[i].outdated && Carried(KeepCurrent(s)[i], before, pool)
  {
    var r := KeepCurrent(s);
    forall i | 0 <= i < |r| ensures !r[i].outdated && Carried(r[i], before, pool) {
      assert r[i] in s;
    }
  }

  /** The entries kept are exactly the navaids seen in the query. */
  lemma KeptHandles(s: seq<RadioNavaid>, before: seq<RadioNavaid>, seen: set<nat>,
                    pool: map<nat, NavaidDb.Navaid>)
    requires Progress(s, before, seen, pool)
    ensures Handles(KeepCurrent(s)) == seen
  {
    var r := KeepCurrent(s);
    forall h | h in Handles(r) ensures h in seen {
      var i :| 0 <= i < |r| && r[i].nav == h;
      assert r[i] in s;
    }
    forall h | h in seen ensures h in Handles(r) {
      var i :| 0 <= i < |s| && s[i].nav == h;
      assert s[i] in r;
    }
  }

  /** A per-radio AVL tree of navaids in range. */
  class NavaidTree {
    var entries: seq<RadioNavaid>

    ghost predicate Valid()
      reads this
    {
      TreeOk(entries)
    }

    constructor ()
      ensures Valid() && entries == []
    {
      entries := [];
    }

    /** `flush_navaid_tree`: every entry freed. */
    method Flush()
      modifies this
      ensures Valid() && entries == []
    {
      entries := [];
    }

    /** The first loop of the refresh: every entry marked outdated, nothing else changes. */
    method MarkOutdated()
      requires Valid()
      modifies this
      ensures Valid()
      ensures |entries| == |old(entries)|
      ensures forall i :: 0 <= i < |entries| ==> entries[i] == old(entries[i]).(outdated := true)
    {
      var i := 0;
      while i < |entries|
        invariant 0 <= i <= |entries| == |old(entries)|
        invariant Valid()
        invariant forall k :: 0 <= k < i ==> entries[k] == old(entries[k]).(outdated := true)
        invariant forall k :: i <= k < |entries| ==> entries[k] == old(entries[k])
      {
        Remark(entries, i, true);
        entries := entries[i := entries[i].(outdated := true)];
        i := i + 1;
      }
    }

    /**
     * `avl_find`: whether navaid `h` is held, and where: its position, or
     * the position at which inserting it keeps the order.
     */
    method Find(h: nat) returns (found: bool, where: nat)
      requires Valid()
      ensures where <= |entries|
      ensures found <==> h in Handles(entries)
      ensures found ==> where < |entries| && entries[where].nav == h
      ensures !found ==> (forall i :: 0 <= i < where ==> entries[i].nav < h)
                         && forall i :: where <= i < |entries| ==> entries[i].nav > h
    {
      where := 0;
      while where < |entries| && entries[where].nav < h
        invariant 0 <= where <= |entries|
        invariant forall i :: 0 <= i < where ==> entries[i].nav < h
      {
        where := where + 1;
      }
      found := where < |entries| && entries[where].nav == h;
      if !found {
        forall i | where <= i < |entries| ensures entries[i].nav > h {
          if i > where { assert entries[where].nav < entries[i].nav; }
        }
      }
    }

    /** The last loop of the refresh: every entry still marked outdated is removed and freed. */
    method RemoveOutdated()
      requires Valid()
      modifies this
      ensures Valid()
      ensures entries == KeepCurrent(old(entries))
    {
      var kept := [];
      var i := 0;
      while i < |entries|
        invariant 0 <= i <= |entries|
        invariant kept == KeepCurrent(entries[..i])
      {
        assert entries[..i + 1][..i] == entries[..i];
        if !entries[i].outdated {
          kept := kept + [entries[i]];
        }
        i := i + 1;
      }
      assert entries[..i] == entries;
      KeepCurrentSorted(entries);
      entries := kept;
    }

    /**
     * `radio_refresh_navaid_list_type` on the navaids `query` returned:
     * afterwards the tree holds exactly those navaids; one it held before
     * keeps its levels, identifier and cursor, a new one gets a fresh
     * identifier encoding, no signal and a cursor drawn from the generator.
     */
    method Refresh(query: seq<nat>, pool: map<nat, NavaidDb.Navaid>, gen: Crc64.CrcGen)
      requires Valid() && gen.Valid()
      requires forall i :: 0 <= i < |query| ==> query[i] in pool
      modifies this, gen
      ensures Valid() && gen.Valid()
      ensures Handles(entries) == QuerySet(query)
      ensures forall i :: 0 <= i < |entries| ==> !entries[i].outdated && Carried(entries[i], old(entries), pool)
    {
      ghost var before := entries;
      MarkOutdated();
      ProgressStart(before, entries, pool);
      var q := 0;
      while q < |query|
        invariant 0 <= q <= |query|
        invariant gen.Valid()
        invariant Progress(entries, before, QuerySet(query[..q]), pool)
      {
        QuerySetSnoc(query, q);
        AddOne(query[q], pool, gen, before, QuerySet(query[..q]));
        q := q + 1;
      }
      assert query[..q] == query;
      ProgressDone(entries, before, QuerySet(query), pool);
      RemoveOutdated();
    }

    /** One pass of the middle loop of the refresh, for navaid `h`. */
    method AddOne(h: nat, pool: map<nat, NavaidDb.Navaid>, gen: Crc64.CrcGen,
                  ghost before: seq<RadioNavaid>, ghost seen: set<nat>)
      requires gen.Valid() && h in pool
      requires Progress(entries, before, seen, pool)
      modifies this, gen
      ensures gen.Valid()
      ensures Progress(entries, before, seen + {h}, pool)
    {
      var found, where := Find(h);
      if !found {
        var chunks := EncodeChunks(pool[h].id);
        var r := gen.Rand();
        var e := RadioNavaid(h, 0.0, 0.0, false, chunks[..], (r as nat) % NumChunks);
        ProgressInsert(entries, where, e, before, seen, pool);
        entries := entries[..where] + [e] + entries[where..];
      } else {
        ProgressRemark(entries, where, before, seen, pool);
        entries := entries[where := entries[where].(outdated := false)];
      }
    }

    /**
     * `radio_get_strongest_navaid`: the strongest navaid heard and its level,
     * unless the runner-up the loop tracks comes within the interference
     * margin of it (see `StrongestAsWrittenMeans`).
     */
    method Strongest() returns (winner: Option<nat>, signalDb: real)
      requires Valid()
      ensures winner.None? <==> StrongestAsWritten(entries).None?
      ensures winner.Some? ==> var k := StrongestAsWritten(entries).value;
                winner.value == entries[k].nav && signalDb == entries[k].signalDb
    {
      var strongest: Option<nat> := None;
      var second: Option<nat> := None;
      var i := 0;
      while i < |entries|
        invariant 0 <= i <= |entries|
        invariant Pick(strongest, second) == PickAsWritten(entries[..i])
      {
        assert entries[..i + 1][..i] == entries[..i];
        var e := entries[i];
        if Heard(e) {
          if strongest.None? {
            strongest := Some(i);
          } else if e.signalDb > entries[strongest.value].signalDb {
            second := strongest;
            strongest := Some(i);
          } else if second.Some? && e.signalDb > entries[second.value].signalDb {
            second := Some(i);
          }
        }
        i := i + 1;
      }
      assert entries[..i] == entries;
      winner, signalDb := None, 0.0;
      if strongest.Some? && !(second.Some? && entries[strongest.value].signalDb - entries[second.value].signalDb < InterferenceLimit) {
        winner, signalDb := Some(entries[strongest.value].nav), entries[strongest.value].signalDb;
      }
    }

    /** The first navaid loop of `navrad_get_audio_buf`: the loudest level, never below the audio noise floor. */
    method LoudestDb() returns (maxDb: real)
      requires Valid()
      ensures maxDb == MaxDb(entries)
    {
      maxDb := NoiseFloorAudio;
      var i := 0;
      while i < |entries|
        invariant 0 <= i <= |entries|
        invariant maxDb == MaxDb(entries[..i])
      {
        assert entries[..i + 1][..i] == entries[..i];
        maxDb := MaxReal(maxDb, entries[i].signalDb);
        i := i + 1;
      }
      assert entries[..i] == entries;
    }

    /**
     * The navaid loops of `navrad_get_audio_buf`: the loudest level sets
     * the signal-to-noise span and the noise level; then every cursor
     * moves one chunk on, wrapping after the last, and each navaid above
     * the signal floor whose new chunk is keyed is mixed in at its share of
     * the span.
     */
    method AudioTick() returns (tones: seq<Tone>, noiseLevel: real)
      requires Valid()
      modifies this
      ensures Valid()
      ensures entries == Advanced(old(entries))
      ensures tones == Tones(entries, MaxDb(entries) - NoiseFloorSignal)
      ensures noiseLevel == NoiseLevel(MaxDb(entries))
    {
      var maxDb := LoudestDb();
      noiseLevel := NoiseLevel(maxDb);
      AdvancedKeepsLoudest(entries);
      AdvancedKeepsTree(entries);
      tones := AdvanceCursors(maxDb - NoiseFloorSignal);
      assert MaxDb(entries) == maxDb;
    }

    /** One pass of the second navaid loop of `navrad_get_audio_buf`: entry `i` moves on one chunk. */
    method AdvanceAt(i: nat, snr: real) returns (tone: seq<Tone>)
      requires i < |entries| && EntryOk(entries[i]) && snr > 0.0
      modifies this
      ensures entries == old(entries)[i := Advance(old(entries)[i])]
      ensures tone == ToneOf(entries[i], snr)
    {
      var e := entries[i];
      var cur := e.cur + 1;
      if cur >= NumChunks {
        cur := 0;
      }
      e := e.(cur := cur);
      entries := entries[i := e];
      tone := [];
      if e.signalDb > NoiseFloorSignal && e.chunks[e.cur] != 0 {
        tone := [Tone(e.nav, (e.signalDb - NoiseFloorSignal) / snr)];
      }
    }

    /** The second navaid loop of `navrad_get_audio_buf`, for a span `snr`. */
    method AdvanceCursors(snr: real) returns (tones: seq<Tone>)
      requires Valid() && snr > 0.0
      modifies this
      ensures entries == Advanced(old(entries))
      ensures tones == Tones(entries, snr)
    {
      ghost var before := entries;
      tones := [];
      var i := 0;
      while i < |entries|
        invariant 0 <= i <= |before| == |entries|
        invariant entries == Advanced(before[..i]) + before[i..]
        invariant tones == Tones(Advanced(before[..i]), snr)
      {
        AdvanceStep(before, i, snr);
        var tone := AdvanceAt(i, snr);
        tones := tones + tone;
        i := i + 1;
      }
      assert before[..i] == before;
    }
  }

  // ---------------------------------------------------------------------
  // The strongest navaid
  // ---------------------------------------------------------------------

  /** A navaid the receiver considers: at or above the signal noise floor. */
  predicate Heard(e: RadioNavaid)
  {
    e.signalDb >= NoiseFloorSignal
  }

  /** The positions of the strongest navaid heard so far and of the runner-up. */
  datatype Pick = Pick(strongest: Option<nat>, second: Option<nat>)

  /** Both picks lie in a tree of `n` entries, and the runner-up is another entry than the strongest. */
  predicate PickIn(p: Pick, n: nat)
  {
    (p.strongest.Some? ==> p.strongest.value < n)
    && (p.second.Some? ==> p.second.value < n && p.strongest.Some? && p.second.value != p.strongest.value)
  }

  /**
   * The loop of `radio_get_strongest_navaid` as written: a navaid that
   * does not beat the strongest only replaces a runner-up that already
   * exists, so a weaker navaid that comes after the strongest is never
   * recorded.
   */
  function PickAsWritten(s: seq<RadioNavaid>): (p: Pick)
    ensures PickIn(p, |s|)
  {
    if |s| == 0 then Pick(None, None)
    else
      var n := |s| - 1;
      var p := PickAsWritten(s[..n]);
      if !Heard(s[n]) then p
      else if p.strongest.None? then Pick(Some(n), p.second)
      else if s[n].signalDb > s[p.strongest.value].signalDb then Pick(Some(n), p.strongest)
      else if p.second.Some? && s[n].signalDb > s[p.second.value].signalDb then Pick(p.strongest, Some(n))
      else p
  }

  /** The same loop with the runner-up recorded whenever a navaid beats it or there is none yet. */
  function PickClear(s: seq<RadioNavaid>): (p: Pick)
    ensures PickIn(p, |s|)
  {
    if |s| == 0 then Pick(None, None)
    else
      var n := |s| - 1;
      var p := PickClear(s[..n]);
      if !Heard(s[n]) then p
      else if p.strongest.None? then Pick(Some(n), None)
      else if s[n].signalDb > s[p.strongest.value].signalDb then Pick(Some(n), p.strongest)
      else if p.second.None? || s[n].signalDb > s[p.second.value].signalDb then Pick(p.strongest, Some(n))
      else p
  }

  /** The interference check after the loop: no winner when the runner-up is within 16 dB. */
  function Verdict(s: seq<RadioNavaid>, p: Pick): (r: Option<nat>)
    requires PickIn(p, |s|)
    ensures r.Some? ==> r == p.strongest && r.value < |s|
    ensures r.Some? && p.second.Some? ==> s[r.value].signalDb - s[p.second.value].signalDb >= InterferenceLimit
    ensures r.None? && p.strongest.Some? ==>
              p.second.Some? && s[p.strongest.value].signalDb - s[p.second.value].signalDb < InterferenceLimit
  {
    if p.strongest.None? then None
    else if p.second.Some? && s[p.strongest.value].signalDb - s[p.second.value].signalDb < InterferenceLimit then None
    else p.strongest
  }

  /** `radio_get_strongest_navaid` as written: the position of the winner. */
  function StrongestAsWritten(s: seq<RadioNavaid>): (r: Option<nat>)
    ensures r.Some? ==> r.value < |s|
  {
    Verdict(s, PickAsWritten(s))
  }

  /** The winner with the runner-up tracked over every navaid heard. */
  function StrongestClear(s: seq<RadioNavaid>): (r: Option<nat>)
    ensures r.Some? ==> r.value < |s|
  {
    Verdict(s, PickClear(s))
  }

  /**
   * What the corrected loop tracks: the first of the loudest navaids heard,
   * and a loudest one among the others heard (none when there is no other).
   */
  lemma {:induction false} PickClearMeans(s: seq<RadioNavaid>)
    ensures var p := PickClear(s);
      (p.strongest.None? <==> forall j :: 0 <= j < |s| ==> !Heard(s[j]))
      && (p.strongest.Some? ==>
            var k := p.strongest.value;
            Heard(s[k])
            && (forall j :: 0 <= j < |s| && Heard(s[j]) ==> s[j].signalDb <= s[k].signalDb)
            && (forall j :: 0 <= j < k && Heard(s[j]) ==> s[j].signalDb < s[k].signalDb)
            && (p.second.None? ==> forall j :: 0 <= j < |s| && Heard(s[j]) ==> j == k)
            && (p.second.Some? ==>
                  Heard(s[p.second.value])
                  && forall j :: 0 <= j < |s| && j != k && Heard(s[j]) ==> s[j].signalDb <= s[p.second.value].signalDb))
  {
    if |s| > 0 {
      var n := |s| - 1;
      PickClearMeans(s[..n]);
      assert forall j :: 0 <= j < n ==> s[..n][j] == s[j];
    }
  }

  /**
   * The corrected winner, whatever the tree order: a navaid heard that
   * stands at least 16 dB above every other navaid heard; and when there is
   * none, every navaid heard has another one within 16 dB of it (or below
   * it).
   */
  lemma StrongestClearMeans(s: seq<RadioNavaid>)
    ensures var r := StrongestClear(s);
      (r.Some? ==> Heard(s[r.value])
                   && forall j :: 0 <= j < |s| && j != r.value && Heard(s[j]) ==>
                        s[r.value].signalDb - s[j].signalDb >= InterferenceLimit)
      && (r.None? ==> forall k :: 0 <= k < |s| && Heard(s[k]) ==>
                        exists j :: 0 <= j < |s| && j != k && Heard(s[j]) && s[k].signalDb - s[j].signalDb < InterferenceLimit)
  {
    PickClearMeans(s);
    var p := PickClear(s);
    if StrongestClear(s).None? && p.strongest.Some? {
      var st := p.strongest.value;
      forall k | 0 <= k < |s| && Heard(s[k])
        ensures exists j :: 0 <= j < |s| && j != k && Heard(s[j]) && s[k].signalDb - s[j].signalDb < InterferenceLimit
      {
        if k == st {
          var j := p.second.value;
          assert j != k && Heard(s[j]) && s[k].signalDb - s[j].signalDb < InterferenceLimit;
        } else {
          assert st != k && Heard(s[st]) && s[k].signalDb - s[st].signalDb < InterferenceLimit;
        }
      }
    }
  }

  /** Both loops agree on the strongest navaid; they differ only in the runner-up. */
  lemma {:induction false} PicksAgreeOnStrongest(s: seq<RadioNavaid>)
    ensures PickAsWritten(s).strongest == PickClear(s).strongest
  {
    if |s| > 0 {
      PicksAgreeOnStrongest(s[..|s| - 1]);
    }
  }

  /** No navaid heard before position `k`. */
  predicate FirstHeard(s: seq<RadioNavaid>, k: nat)
  {
    forall j :: 0 <= j < k && j < |s| ==> !Heard(s[j])
  }

  /**
   * The loop as written tracks the same runner-up as the corrected one,
   * except that it records none while the first navaid heard is still the
   * strongest.
   */
  lemma {:induction false} PickAsWrittenFromClear(s: seq<RadioNavaid>)
    ensures var c := PickClear(s);
      PickAsWritten(s) == if c.strongest.Some? && FirstHeard(s, c.strongest.value) then Pick(c.strongest, None) else c
  {
    if |s| > 0 {
      var n := |s| - 1;
      PickAsWrittenFromClear(s[..n]);
      PicksAgreeOnStrongest(s[..n]);
      PickClearMeans(s[..n]);
      assert forall j :: 0 <= j < n ==> s[..n][j] == s[j];
      var c := PickClear(s[..n]);
      if c.strongest.Some? {
        assert FirstHeard(s[..n], c.strongest.value) <==> FirstHeard(s, c.strongest.value);
      }
    }
  }

  /**
   * What `radio_get_strongest_navaid` returns. With nothing heard, nothing.
   * Any winner is the loudest navaid heard. A winner that is not the first
   * navaid heard stands at least 16 dB above every other navaid heard. No
   * winner means every navaid heard has another within 16 dB of it.
   */
  lemma StrongestAsWrittenMeans(s: seq<RadioNavaid>)
    ensures (forall j :: 0 <= j < |s| ==> !Heard(s[j])) ==> StrongestAsWritten(s).None?
    ensures var r := StrongestAsWritten(s);
      r.Some? ==> Heard(s[r.value]) && (forall j :: 0 <= j < |s| && Heard(s[j]) ==> s[j].signalDb <= s[r.value].signalDb)
    ensures var r := StrongestAsWritten(s);
      r.Some? && !FirstHeard(s, r.value) ==>
        forall j :: 0 <= j < |s| && j != r.value && Heard(s[j]) ==> s[r.value].signalDb - s[j].signalDb >= InterferenceLimit
    ensures StrongestAsWritten(s).None? ==>
      forall k :: 0 <= k < |s| && Heard(s[k]) ==>
        exists j :: 0 <= j < |s| && j != k && Heard(s[j]) && s[k].signalDb - s[j].signalDb < InterferenceLimit
  {
    StrongestAsWrittenLoudest(s);
    StrongestAsWrittenCases(s);
    var c := PickClear(s);
    if c.strongest.Some? && FirstHeard(s, c.strongest.value) {
      assert StrongestAsWritten(s) == c.strongest;
    } else {
      assert StrongestAsWritten(s) == StrongestClear(s);
      StrongestClearMeans(s);
    }
  }

  /** The verdict as written: the corrected strongest while it is the first heard, else the corrected verdict. */
  lemma StrongestAsWrittenCases(s: seq<RadioNavaid>)
    ensures var c := PickClear(s);
      StrongestAsWritten(s) == if c.strongest.Some? && FirstHeard(s, c.strongest.value) then c.strongest else StrongestClear(s)
  {
    PickAsWrittenFromClear(s);
  }

  /** As written, nothing heard gives no winner, and a winner is heard and the loudest. */
  lemma StrongestAsWrittenLoudest(s: seq<RadioNavaid>)
    ensures (forall j :: 0 <= j < |s| ==> !Heard(s[j])) ==> StrongestAsWritten(s).None?
    ensures var r := StrongestAsWritten(s);
      r.Some? ==> Heard(s[r.value]) && (forall j :: 0 <= j < |s| && Heard(s[j]) ==> s[j].signalDb <= s[r.value].signalDb)
  {
    PickClearMeans(s);
    StrongestAsWrittenCases(s);
    var c := PickClear(s);
    assert StrongestAsWritten(s).Some? ==> StrongestAsWritten(s) == c.strongest;
  }

  /**
   * As written, the first navaid heard wins whenever it is the loudest,
   * however close the navaids after it are.
   */
  lemma FirstLoudestWins(s: seq<RadioNavaid>, f: nat)
    requires f < |s| && Heard(s[f]) && FirstHeard(s, f)
    requires forall j :: 0 <= j < |s| && Heard(s[j]) ==> s[j].signalDb <= s[f].signalDb
    ensures StrongestAsWritten(s) == Some(f)
  {
    PickClearMeans(s);
    PickAsWrittenFromClear(s);
    assert PickClear(s).strongest == Some(f);
  }

  /**
   * As written, the verdict depends on the tree order, which follows the
   * navaid records' addresses: two navaids heard at -10 dB and -12 dB,
   * 2 dB apart, give the -10 dB navaid when it comes first and no winner
   * when it comes second.
   */
  lemma StrongestAsWrittenDependsOnOrder()
    ensures var loud := RadioNavaid(1, -10.0, -10.0, false, [], 0);
      var quiet := RadioNavaid(2, -12.0, -12.0, false, [], 0);
      StrongestAsWritten([loud, quiet]) == Some(0)
      && StrongestAsWritten([quiet.(nav := 1), loud.(nav := 2)]).None?
  {
    var loud := RadioNavaid(1, -10.0, -10.0, false, [], 0);
    var quiet := RadioNavaid(2, -12.0, -12.0, false, [], 0);
    var a := [loud, quiet];
    assert a[..1] == [loud] && a[..1][..0] == [];
    assert PickAsWritten(a[..1]) == Pick(Some(0), None);
    assert PickAsWritten(a) == Pick(Some(0), None);
    var b := [quiet.(nav := 1), loud.(nav := 2)];
    assert b[..1] == [quiet.(nav := 1)] && b[..1][..0] == [];
    assert PickAsWritten(b[..1]) == Pick(Some(0), None);
    assert PickAsWritten(b) == Pick(Some(1), Some(0));
  }

  // ---------------------------------------------------------------------
  // Audio
  // ---------------------------------------------------------------------

  /** The audio noise floor: the loudest level the mixer assumes is never below it. */
  const NoiseFloorAudio: real := -60.0

  /** A navaid mixed into one audio buffer, at a share of the signal-to-noise span. */
  datatype Tone = Tone(nav: nat, level: real)

  /** The loudest level of the tree, never below the audio noise floor. */
  function MaxDb(s: seq<RadioNavaid>): (m: real)
    ensures m >= NoiseFloorAudio
    ensures forall i :: 0 <= i < |s| ==> s[i].signalDb <= m
  {
    if |s| == 0 then NoiseFloorAudio else MaxReal(MaxDb(s[..|s| - 1]), s[|s| - 1].signalDb)
  }

  /**
   * The level of the background noise the distortion stage mixes in: the
   * reciprocal of how far the loudest level stands above the audio noise
   * floor, taken as at least 1 dB; full noise with nothing above the floor.
   */
  function NoiseLevel(maxDb: real): (r: real)
    ensures 0.0 < r <= 1.0
    ensures maxDb <= NoiseFloorAudio + 1.0 ==> r == 1.0
  {
    var span := MaxReal(maxDb - NoiseFloorAudio, 1.0);
    assert 1.0 / span <= 1.0 / 1.0;
    1.0 / span
  }

  /** One step of the chunk cursor, wrapping after the last chunk. */
  function Advance(e: RadioNavaid): (r: RadioNavaid)
    ensures r == e.(cur := (e.cur + 1) % NumChunks) || e.cur >= NumChunks
  {
    e.(cur := if e.cur + 1 >= NumChunks then 0 else e.cur + 1)
  }

  function Advanced(s: seq<RadioNavaid>): (r: seq<RadioNavaid>)
    ensures |r| == |s|
  {
    if |s| == 0 then [] else Advanced(s[..|s| - 1]) + [Advance(s[|s| - 1])]
  }

  lemma AdvancedSnoc(s: seq<RadioNavaid>, e: RadioNavaid)
    ensures Advanced(s + [e]) == Advanced(s) + [Advance(e)]
  {
    assert (s + [e])[..|s|] == s;
  }

  lemma {:induction false} AdvancedAt(s: seq<RadioNavaid>)
    ensures forall i :: 0 <= i < |s| ==> Advanced(s)[i] == Advance(s[i])
  {
    if |s| > 0 {
      AdvancedAt(s[..|s| - 1]);
    }
  }

  /** One pass of the cursor loop: entry `i` is still the old one, and advancing it extends the advanced prefix. */
  lemma AdvanceStep(s: seq<RadioNavaid>, i: nat, snr: real)
    requires i < |s| && snr > 0.0 && TreeOk(s)
    ensures var cur := Advanced(s[..i]) + s[i..];
      |cur| == |s| && cur[i] == s[i] && EntryOk(cur[i])
      && cur[i := Advance(s[i])] == Advanced(s[..i + 1]) + s[i + 1..]
      && Tones(Advanced(s[..i + 1]), snr) == Tones(Advanced(s[..i]), snr) + ToneOf(Advance(s[i]), snr)
  {
    assert s[..i + 1] == s[..i] + [s[i]];
    AdvancedSnoc(s[..i], s[i]);
    TonesSnoc(Advanced(s[..i]), Advance(s[i]), snr);
  }

  /** Advancing the cursors keeps the tree: same navaids, same order, cursors still in the cycle. */
  lemma AdvancedKeepsTree(s: seq<RadioNavaid>)
    requires TreeOk(s)
    ensures TreeOk(Advanced(s)) && Handles(Advanced(s)) == Handles(s)
  {
    AdvancedAt(s);
  }

  /** Only the cursors move: levels, identifiers and marks stay. */
  lemma AdvancedKeepsLevels(s: seq<RadioNavaid>)
    ensures forall i :: 0 <= i < |s| ==> Advanced(s)[i].(cur := s[i].cur) == s[i]
  {
    AdvancedAt(s);
  }

  /** So the loudest level is the same before and after. */
  lemma AdvancedKeepsLoudest(s: seq<RadioNavaid>)
    ensures MaxDb(Advanced(s)) == MaxDb(s)
  {
    AdvancedAt(s);
    MaxDbLevels(s, Advanced(s));
  }

  lemma {:induction false} MaxDbLevels(s: seq<RadioNavaid>, t: seq<RadioNavaid>)
    requires |s| == |t| && forall i :: 0 <= i < |s| ==> s[i].signalDb == t[i].signalDb
    ensures MaxDb(s) == MaxDb(t)
  {
    if |s| > 0 {
      MaxDbLevels(s[..|s| - 1], t[..|t| - 1]);
    }
  }

  /** One more entry adds its tone, if it has one. */
  lemma TonesSnoc(s: seq<RadioNavaid>, e: RadioNavaid, snr: real)
    requires snr > 0.0
    ensures Tones(s + [e], snr) == Tones(s, snr) + ToneOf(e, snr)
  {
    assert (s + [e])[..|s|] == s;
  }

  /** The navaids keyed at their current chunk and above the signal floor, with their share of the span. */
  function Tones(s: seq<RadioNavaid>, snr: real): (r: seq<Tone>)
    requires snr > 0.0
    ensures |r| <= |s|
    ensures forall k :: 0 <= k < |r| ==> r[k].level > 0.0
  {
    if |s| == 0 then [] else Tones(s[..|s| - 1], snr) + ToneOf(s[|s| - 1], snr)
  }

  /** The tone of one navaid: keyed at its current chunk (always inside a valid entry's cycle) and above the signal floor. */
  function ToneOf(e: RadioNavaid, snr: real): seq<Tone>
    requires snr > 0.0
  {
    if e.signalDb > NoiseFloorSignal && e.cur < |e.chunks| && e.chunks[e.cur] != 0
    then [Tone(e.nav, (e.signalDb - NoiseFloorSignal) / snr)] else []
  }

  /**
   * Every tone is mixed in at a level in (0, 1] when the span reaches the
   * loudest level: the loudest navaid plays at full level and the others at
   * their share of it.
   */
  lemma {:induction false} ToneLevels(s: seq<RadioNavaid>, snr: real)
    requires snr > 0.0
    requires forall i :: 0 <= i < |s| ==> s[i].signalDb - NoiseFloorSignal <= snr
    ensures forall k :: 0 <= k < |Tones(s, snr)| ==>
              0.0 < Tones(s, snr)[k].level <= 1.0 && Tones(s, snr)[k].nav in Handles(s)
  {
    if |s| > 0 {
      var n := |s| - 1;
      ToneLevels(s[..n], snr);
      var e := s[n];
      if e.signalDb > NoiseFloorSignal {
        var x := e.signalDb - NoiseFloorSignal;
        assert 0.0 < x / snr <= 1.0 by {
          assert x / snr <= snr / snr;
        }
      }
      assert Handles(s[..n]) <= Handles(s) by {
        forall h | h in Handles(s[..n]) ensures h in Handles(s) {
          var i :| 0 <= i < n && s[..n][i].nav == h;
          assert s[i].nav == h;
        }
      }
      assert e.nav in Handles(s);
    }
  }

  /** With the span `AudioTick` uses, every tone is at a level in (0, 1]. */
  lemma AudioTickLevels(s: seq<RadioNavaid>)
    requires TreeOk(s)
    ensures var ts := Tones(s, MaxDb(s) - NoiseFloorSignal);
      forall k :: 0 <= k < |ts| ==> 0.0 < ts[k].level <= 1.0
  {
    ToneLevels(s, MaxDb(s) - NoiseFloorSignal);
  }

  // ---------------------------------------------------------------------
  // The radio
  // ---------------------------------------------------------------------

  /** A tree refreshed from a query for one type and frequency holds only navaids of that type and frequency. */
  lemma RefreshedTreeMatchesQuery(s: seq<RadioNavaid>, q: seq<nat>, pool: map<nat, NavaidDb.Navaid>,
                                  freq: nat, t: NavaidDb.NavaidType)
    requires Handles(s) == QuerySet(q)
    requires forall i :: 0 <= i < |q| ==>
               q[i] in pool && NavaidDb.NavaidSelect(pool[q[i]], None, Some(freq), Some(NavaidDb.TypeValue(t)))
    ensures forall i :: 0 <= i < |s| ==>
              s[i].nav in pool && pool[s[i].nav].navType == t && pool[s[i].nav].freq == freq
  {
    forall i | 0 <= i < |s|
      ensures s[i].nav in pool && pool[s[i].nav].navType == t && pool[s[i].nav].freq == freq
    {
      assert s[i].nav in Handles(s);
      var k :| 0 <= k < |q| && q[k] == s[i].nav;
      NavaidDb.SelectByOneType(pool[q[k]], t);
    }
  }

  /** One navigation radio: the VORs and the DMEs it can hear. */
  class Radio {
    const vors: NavaidTree
    const dmes: NavaidTree

    ghost predicate Valid()
      reads this, vors, dmes
    {
      vors != dmes && vors.Valid() && dmes.Valid()
    }

    constructor ()
      ensures Valid() && fresh(vors) && fresh(dmes)
      ensures vors.entries == [] && dmes.entries == []
    {
      vors := new NavaidTree();
      dmes := new NavaidTree();
    }

    /**
     * `radio_refresh_navaid_list`: on a VOR frequency the VOR tree and then
     * the DME tree are refreshed from what the database returned for it;
     * on any other frequency both trees are flushed.
     */
    method RefreshList(freq: nat, v: NavaidDb.FreqChecks, vorQuery: seq<nat>, dmeQuery: seq<nat>,
                       pool: map<nat, NavaidDb.Navaid>, gen: Crc64.CrcGen)
      requires Valid() && gen.Valid()
      requires forall i :: 0 <= i < |vorQuery| ==> vorQuery[i] in pool
      requires forall i :: 0 <= i < |dmeQuery| ==> dmeQuery[i] in pool
      modifies vors, dmes, gen
      ensures Valid() && gen.Valid()
      ensures !v.vorMhz(freq as real / 1000000.0) ==> vors.entries == [] && dmes.entries == []
      ensures v.vorMhz(freq as real / 1000000.0) ==>
                Handles(vors.entries) == QuerySet(vorQuery) && Handles(dmes.entries) == QuerySet(dmeQuery)
                && (forall i :: 0 <= i < |vors.entries| ==>
                      !vors.entries[i].outdated && Carried(vors.entries[i], old(vors.entries), pool))
                && (forall i :: 0 <= i < |dmes.entries| ==>
                      !dmes.entries[i].outdated && Carried(dmes.entries[i], old(dmes.entries), pool))
    {
      if v.vorMhz(freq as real / 1000000.0) {
        vors.Refresh(vorQuery, pool, gen);
        dmes.Refresh(dmeQuery, pool, gen);
      } else {
        vors.Flush();
        dmes.Flush();
      }
    }
  }
}
