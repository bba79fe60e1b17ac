/** Normalization of policy text, with maps from the normalized text back to the raw text and from
    the compact text back to the normalized one. */
module Normalization {

  /** The Unicode tables: NFKC of one character, the "C" categories, lowercasing of one character
      and `isspace`. */
  datatype Unicode = Unicode(
    nfkc: char -> string, control: char -> bool, lower: char -> string, space: string -> bool)
  {
    /** Lowercasing never deletes a character, and a blank is whitespace. */
    ghost predicate Valid() {
      (forall c :: lower(c) != "") && space(" ")
    }
  }

  const LIMIT: nat := 20_000

  const ZERO_WIDTH: set<char> :=
    {'\U{200b}', '\U{200c}', '\U{200d}', '\U{2060}', '\U{feff}'}

  const COMPACT_SEPARATORS: set<string> :=
    {" ", "\t", "\r", "\n", "\U{b7}", "\U{30fb}", "_"}

  function Translated(c: char): char {
    if c == '\U{ff0c}' then ','
    else if c == '\U{3002}' then '.'
    else if c == '\U{ff01}' then '!'
    else if c == '\U{ff1f}' then '?'
    else if c == '\U{ff1b}' then ';'
    else if c == '\U{ff1a}' then ':'
    else if c == '\U{ff08}' then '('
    else if c == '\U{ff09}' then ')'
    else c
  }

  function TranslatedAll(s: string): string {
    seq(|s|, i requires 0 <= i < |s| => Translated(s[i]))
  }

  /** One entry of the lists the source builds: usually one character, but lowercasing can yield
      several. */
  datatype Piece = Piece(text: string, raw: nat)

  datatype NormalizedText = NormalizedText(
    raw: string, normalized: string, compact: string,
    normalizedToRaw: seq<nat>, compactToNormalized: seq<nat>)

  function Joined(pieces: seq<Piece>): string {
    if pieces == [] then ""
    else Joined(pieces[..|pieces| - 1]) + pieces[|pieces| - 1].text
  }

  function Origins(pieces: seq<Piece>): seq<nat> {
    seq(|pieces|, i requires 0 <= i < |pieces| => pieces[i].raw)
  }

  /******* What the three loops compute *******/

  function PieceText(u: Unicode, c: char): string {
    TranslatedAll(u.lower(if u.control(c) then ' ' else c))
  }

  /** The pieces of the first `n` characters of one character's NFKC form. */
  function PiecesOf(u: Unicode, form: string, index: nat, n: nat): seq<Piece>
    requires n <= |form|
  {
    if n == 0 then []
    else if form[n - 1] in ZERO_WIDTH then PiecesOf(u, form, index, n - 1)
    else PiecesOf(u, form, index, n - 1) + [Piece(PieceText(u, form[n - 1]), index)]
  }

  function Expanded(u: Unicode, raw: string, n: nat): seq<Piece>
    requires n <= |raw|
  {
    if n == 0 then []
    else
      var form := u.nfkc(raw[n - 1]);
      Expanded(u, raw, n - 1) + PiecesOf(u, form, n - 1, |form|)
  }

  /** Whitespace is collapsed, and leading whitespace dropped. */
  function Collapsed(u: Unicode, pieces: seq<Piece>, n: nat): seq<Piece>
    requires n <= |pieces|
  {
    if n == 0 then []
    else
      var before := Collapsed(u, pieces, n - 1);
      if !u.space(pieces[n - 1].text) then before + [pieces[n - 1]]
      else if AfterSpace(u, pieces, n - 1) then before
      else before + [pieces[n - 1].(text := " ")]
  }

  /** The flag the loop carries: at the start, and after whitespace. */
  predicate AfterSpace(u: Unicode, pieces: seq<Piece>, n: nat)
    requires n <= |pieces|
  {
    n == 0 || u.space(pieces[n - 1].text)
  }

  function Trimmed(pieces: seq<Piece>): seq<Piece> {
    if pieces != [] && pieces[|pieces| - 1].text == " " then pieces[..|pieces| - 1] else pieces
  }

  /** The positions of the pieces that are no separators. */
  function Solid(pieces: seq<Piece>, n: nat): seq<nat>
    requires n <= |pieces|
  {
    if n == 0 then []
    else if pieces[n - 1].text in COMPACT_SEPARATORS then Solid(pieces, n - 1)
    else Solid(pieces, n - 1) + [n - 1]
  }

  function Picked(pieces: seq<Piece>, positions: seq<nat>): seq<Piece>
    requires forall i :: 0 <= i < |positions| ==> positions[i] < |pieces|
  {
    seq(|positions|, i requires 0 <= i < |positions| => pieces[positions[i]])
  }

  function Pieces(u: Unicode, raw: string): seq<Piece> {
    var expanded := Expanded(u, raw, |raw|);
    Trimmed(Collapsed(u, expanded, |expanded|))
  }

  function Truncated(value: string): string {
    if |value| > LIMIT then value[..LIMIT] else value
  }

  lemma {:induction false} SolidInRange(pieces: seq<Piece>, n: nat)
    requires n <= |pieces|
    ensures forall i :: 0 <= i < |Solid(pieces, n)| ==> Solid(pieces, n)[i] < n
  {
    if n > 0 {
      SolidInRange(pieces, n - 1);
    }
  }

  function Normalized(u: Unicode, value: string): NormalizedText {
    var raw := Truncated(value);
    var pieces := Pieces(u, raw);
    var solid := Solid(pieces, |pieces|);
    SolidInRange(pieces, |pieces|);
    NormalizedText(raw, Joined(pieces), Joined(Picked(pieces, solid)), Origins(pieces), solid)
  }

  /******* The loops *******/

  method Normalize(u: Unicode, value: string) returns (r: NormalizedText)
    ensures r == Normalized(u, value)
  {
    var raw := value;
    if |raw| > LIMIT {
      raw := raw[..LIMIT];
    }

    var expanded: seq<Piece> := [];
    for rawIndex := 0 to |raw|
      invariant expanded == Expanded(u, raw, rawIndex)
    {
      var form := u.nfkc(raw[rawIndex]);
      ghost var before := expanded;
      for i := 0 to |form|
        invariant expanded == before + PiecesOf(u, form, rawIndex, i)
      {
        if form[i] in ZERO_WIDTH {
          continue;
        }
        var character := if u.control(form[i]) then ' ' else form[i];
        expanded := expanded + [Piece(TranslatedAll(u.lower(character)), rawIndex)];
      }
    }

    var pieces: seq<Piece> := [];
    var previousSpace := true;
    for i := 0 to |expanded|
      invariant pieces == Collapsed(u, expanded, i)
      invariant previousSpace == AfterSpace(u, expanded, i)
    {
      var piece := expanded[i];
      if u.space(piece.text) {
        if previousSpace {
          continue;
        }
        piece := piece.(text := " ");
        previousSpace := true;
      } else {
        previousSpace := false;
      }
      pieces := pieces + [piece];
    }
    if pieces != [] && pieces[|pieces| - 1].text == " " {
      pieces := pieces[..|pieces| - 1];
    }

    var compact: seq<Piece> := [];
    var compactToNormalized: seq<nat> := [];
    for index := 0 to |pieces|
      invariant compactToNormalized == Solid(pieces, index)
      invariant forall i :: 0 <= i < |compactToNormalized| ==> compactToNormalized[i] < |pieces|
      invariant compact == Picked(pieces, compactToNormalized)
    {
      if pieces[index].text in COMPACT_SEPARATORS {
        continue;
      }
      compact := compact + [pieces[index]];
      compactToNormalized := compactToNormalized + [index];
    }

    return NormalizedText(raw, Joined(pieces), Joined(compact), Origins(pieces),
                          compactToNormalized);
  }

  /******* The raw map *******/

  ghost predicate Ordered(pieces: seq<Piece>, bound: nat) {
    && (forall i :: 0 <= i < |pieces| ==> pieces[i].raw < bound)
    && (forall i, j | 0 <= i < j < |pieces| :: pieces[i].raw <= pieces[j].raw)
  }

  lemma {:induction false} PiecesOfOrigin(u: Unicode, form: string, index: nat, n: nat)
    requires n <= |form|
    ensures forall i :: 0 <= i < |PiecesOf(u, form, index, n)| ==>
              PiecesOf(u, form, index, n)[i].raw == index
  {
    if n > 0 {
      PiecesOfOrigin(u, form, index, n - 1);
    }
  }

  lemma {:induction false} ExpandedOrdered(u: Unicode, raw: string, n: nat)
    requires n <= |raw|
    ensures Ordered(Expanded(u, raw, n), n)
  {
    if n > 0 {
      ExpandedOrdered(u, raw, n - 1);
      var form := u.nfkc(raw[n - 1]);
      PiecesOfOrigin(u, form, n - 1, |form|);
    }
  }

  lemma {:induction false} CollapsedOrdered(u: Unicode, pieces: seq<Piece>, n: nat, bound: nat)
    requires n <= |pieces| && Ordered(pieces, bound)
    ensures Ordered(Collapsed(u, pieces, n), bound)
    ensures forall i :: 0 <= i < |Collapsed(u, pieces, n)| ==>
              n > 0 && Collapsed(u, pieces, n)[i].raw <= pieces[n - 1].raw
  {
    if n > 0 {
      CollapsedOrdered(u, pieces, n - 1, bound);
    }
  }

  /** The raw map never runs backwards and stays inside the raw text. */
  lemma RawMapMonotone(u: Unicode, value: string)
    ensures
      var r := Normalized(u, value);
      && r.raw == (if |value| > 20_000 then value[..20_000] else value)
      && (forall i :: 0 <= i < |r.normalizedToRaw| ==> r.normalizedToRaw[i] < |r.raw|)
      && (forall i, j | 0 <= i < j < |r.normalizedToRaw| ::
            r.normalizedToRaw[i] <= r.normalizedToRaw[j])
  {
    var raw := Truncated(value);
    ExpandedOrdered(u, raw, |raw|);
    var expanded := Expanded(u, raw, |raw|);
    CollapsedOrdered(u, expanded, |expanded|, |raw|);
  }

  /******* Alignment *******/

  ghost predicate OneEach(pieces: seq<Piece>) {
    forall i :: 0 <= i < |pieces| ==> |pieces[i].text| == 1
  }

  ghost predicate NoneEmpty(pieces: seq<Piece>) {
    forall i :: 0 <= i < |pieces| ==> pieces[i].text != ""
  }

  lemma {:induction false} JoinedLength(pieces: seq<Piece>)
    requires NoneEmpty(pieces)
    ensures |Joined(pieces)| >= |pieces|
    ensures |Joined(pieces)| == |pieces| <==> OneEach(pieces)
  {
    if pieces != [] {
      var front := pieces[..|pieces| - 1];
      JoinedLength(front);
      assert OneEach(pieces) <==> OneEach(front) && |pieces[|pieces| - 1].text| == 1;
    }
  }

  lemma {:induction false} PiecesOfNonEmpty(u: Unicode, form: string, index: nat, n: nat)
    requires n <= |form| && u.Valid()
    ensures NoneEmpty(PiecesOf(u, form, index, n))
  {
    if n > 0 {
      PiecesOfNonEmpty(u, form, index, n - 1);
      assert u.lower(if u.control(form[n - 1]) then ' ' else form[n - 1]) != "";
    }
  }

  lemma {:induction false} ExpandedNonEmpty(u: Unicode, raw: string, n: nat)
    requires n <= |raw| && u.Valid()
    ensures NoneEmpty(Expanded(u, raw, n))
  {
    if n > 0 {
      ExpandedNonEmpty(u, raw, n - 1);
      var form := u.nfkc(raw[n - 1]);
      PiecesOfNonEmpty(u, form, n - 1, |form|);
    }
  }

  lemma {:induction false} CollapsedNonEmpty(u: Unicode, pieces: seq<Piece>, n: nat)
    requires n <= |pieces| && NoneEmpty(pieces)
    ensures NoneEmpty(Collapsed(u, pieces, n))
  {
    if n > 0 {
      CollapsedNonEmpty(u, pieces, n - 1);
    }
  }

  lemma PiecesNonEmpty(u: Unicode, raw: string)
    requires u.Valid()
    ensures NoneEmpty(Pieces(u, raw))
  {
    ExpandedNonEmpty(u, raw, |raw|);
    var expanded := Expanded(u, raw, |raw|);
    CollapsedNonEmpty(u, expanded, |expanded|);
  }

  lemma {:induction false} JoinedChars(pieces: seq<Piece>)
    requires OneEach(pieces)
    ensures |Joined(pieces)| == |pieces|
    ensures forall i :: 0 <= i < |pieces| ==> [Joined(pieces)[i]] == pieces[i].text
  {
    if pieces != [] {
      JoinedChars(pieces[..|pieces| - 1]);
    }
  }

  /** What becomes of one character of an NFKC form: it is dropped, or whitespace, or it lowercases
      to one character. */
  predicate LowersToOne(u: Unicode, c: char) {
    || c in ZERO_WIDTH || u.space(PieceText(u, c))
    || |u.lower(if u.control(c) then ' ' else c)| == 1
  }

  /** A test on the raw text, character by character. */
  predicate OneToOne(u: Unicode, raw: string) {
    forall i, j | 0 <= i < |raw| && 0 <= j < |u.nfkc(raw[i])| :: LowersToOne(u, u.nfkc(raw[i])[j])
  }

  ghost predicate SpaceOrOne(u: Unicode, pieces: seq<Piece>) {
    forall i :: 0 <= i < |pieces| ==> u.space(pieces[i].text) || |pieces[i].text| == 1
  }

  lemma SpaceOrOneSplits(u: Unicode, a: seq<Piece>, b: seq<Piece>)
    ensures SpaceOrOne(u, a + b) <==> SpaceOrOne(u, a) && SpaceOrOne(u, b)
  {
    forall i | 0 <= i < |b| ensures (a + b)[|a| + i] == b[i] {}
    forall i | 0 <= i < |a| ensures (a + b)[i] == a[i] {}
  }

  lemma {:induction false} FormOneToOne(u: Unicode, form: string, index: nat, n: nat)
    requires n <= |form|
    ensures SpaceOrOne(u, PiecesOf(u, form, index, n))
       <==> forall j :: 0 <= j < n ==> LowersToOne(u, form[j])
  {
    hide SpaceOrOne;
    if n == 0 {
      assert SpaceOrOne(u, []) by { NoPieces(u); }
    } else {
      FormOneToOne(u, form, index, n - 1);
      var c := form[n - 1];
      OnePiece(u, Piece(PieceText(u, c), index));
      SpaceOrOneSplits(u, PiecesOf(u, form, index, n - 1), [Piece(PieceText(u, c), index)]);
      assert (forall j :: 0 <= j < n ==> LowersToOne(u, form[j]))
        <==> (forall j :: 0 <= j < n - 1 ==> LowersToOne(u, form[j])) && LowersToOne(u, c);
    }
  }

  lemma NoPieces(u: Unicode)
    ensures SpaceOrOne(u, [])
  {}

  lemma OnePiece(u: Unicode, piece: Piece)
    ensures SpaceOrOne(u, [piece]) <==> u.space(piece.text) || |piece.text| == 1
  {
    assert [piece][0] == piece;
  }

  lemma {:induction false} ExpandedOneToOne(u: Unicode, raw: string, n: nat)
    requires n <= |raw|
    ensures SpaceOrOne(u, Expanded(u, raw, n)) <==> OneToOne(u, raw[..n])
  {
    hide SpaceOrOne, LowersToOne, PiecesOf;
    if n == 0 {
      NoPieces(u);
    } else {
      ExpandedOneToOne(u, raw, n - 1);
      var form := u.nfkc(raw[n - 1]);
      FormOneToOne(u, form, n - 1, |form|);
      SpaceOrOneSplits(u, Expanded(u, raw, n - 1), PiecesOf(u, form, n - 1, |form|));
      assert raw[..n] == raw[..n - 1] + [raw[n - 1]];
    }
  }

  lemma {:induction false} CollapsedOneToOne(u: Unicode, pieces: seq<Piece>, n: nat)
    requires n <= |pieces|
    ensures OneEach(Collapsed(u, pieces, n)) <==> SpaceOrOne(u, pieces[..n])
  {
    if n > 0 {
      CollapsedOneToOne(u, pieces, n - 1);
      var before := Collapsed(u, pieces, n - 1);
      OneEachSplits(before, Collapsed(u, pieces, n)[|before|..]);
      assert before + Collapsed(u, pieces, n)[|before|..] == Collapsed(u, pieces, n);
      SpaceOrOneSplits(u, pieces[..n - 1], [pieces[n - 1]]);
      OnePiece(u, pieces[n - 1]);
      assert pieces[..n] == pieces[..n - 1] + [pieces[n - 1]];
    }
  }

  lemma OneEachSplits(a: seq<Piece>, b: seq<Piece>)
    ensures OneEach(a + b) <==> OneEach(a) && OneEach(b)
  {
    forall i | 0 <= i < |b| ensures (a + b)[|a| + i] == b[i] {}
    forall i | 0 <= i < |a| ensures (a + b)[i] == a[i] {}
  }

  /** The retained pieces are single characters exactly when the raw text passes the test. */
  lemma PiecesOneToOne(u: Unicode, raw: string)
    ensures OneEach(Pieces(u, raw)) <==> OneToOne(u, raw)
  {
    hide OneEach, SpaceOrOne, LowersToOne, OneToOne;
    var expanded := Expanded(u, raw, |raw|);
    ExpandedOneToOne(u, raw, |raw|);
    CollapsedOneToOne(u, expanded, |expanded|);
    assert raw[..|raw|] == raw && expanded[..|expanded|] == expanded;
    TrimmedOneEach(Collapsed(u, expanded, |expanded|));
  }

  lemma TrimmedOneEach(pieces: seq<Piece>)
    ensures OneEach(Trimmed(pieces)) <==> OneEach(pieces)
  {
    if Trimmed(pieces) != pieces {
      assert pieces == Trimmed(pieces) + [pieces[|pieces| - 1]];
      OneEachSplits(Trimmed(pieces), [pieces[|pieces| - 1]]);
    }
  }

  /** Each map has one entry per character of its text exactly when every retained character of the
      raw text lowercases to one character. */
  lemma MapsAligned(u: Unicode, value: string)
    requires u.Valid()
    ensures
      var r := Normalized(u, value);
      && (|r.normalizedToRaw| == |r.normalized| <==> OneToOne(u, r.raw))
      && (|r.compactToNormalized| == |r.compact| <==> OneToOne(u, r.raw))
  {
    hide OneToOne, Pieces;
    var pieces := Pieces(u, Truncated(value));
    PiecesNonEmpty(u, Truncated(value));
    JoinedLength(pieces);
    PiecesOneToOne(u, Truncated(value));
    var solid := Solid(pieces, |pieces|);
    SolidExactly(pieces, |pieces|);
    JoinedLength(Picked(pieces, solid));
    forall i | 0 <= i < |pieces| && |pieces[i].text| != 1 ensures !OneEach(Picked(pieces, solid)) {
      assert i in solid;
      var k :| 0 <= k < |solid| && solid[k] == i;
      assert Picked(pieces, solid)[k] == pieces[i];
    }
  }

  /** Otherwise the compact map is shorter than its text. */
  lemma CompactMapShort(u: Unicode, value: string)
    requires u.Valid() && !OneToOne(u, Truncated(value))
    ensures
      var r := Normalized(u, value);
      |r.compactToNormalized| < |r.compact|
  {
    hide OneToOne, Pieces;
    MapsAligned(u, value);
    var pieces := Pieces(u, Truncated(value));
    PiecesNonEmpty(u, Truncated(value));
    SolidExactly(pieces, |pieces|);
    JoinedLength(Picked(pieces, Solid(pieces, |pieces|)));
  }

  /** Where lowercasing never yields more than one character, every text is aligned. */
  lemma OneCharacterLowercasing(u: Unicode, value: string)
    requires u.Valid() && forall c :: |u.lower(c)| == 1
    ensures
      var r := Normalized(u, value);
      |r.normalizedToRaw| == |r.normalized| && |r.compactToNormalized| == |r.compact|
  {
    MapsAligned(u, value);
  }

  const DOTTED_CAPITAL_I := '\U{130}'

  /** The entries of the Unicode tables for the capital I with a dot above, which lowercases to an i
      and a combining dot. */
  ghost predicate KnowsDottedI(u: Unicode) {
    && u.nfkc(DOTTED_CAPITAL_I) == [DOTTED_CAPITAL_I] && !u.control(DOTTED_CAPITAL_I)
    && u.lower(DOTTED_CAPITAL_I) == "i\U{307}" && !u.space("i\U{307}")
  }

  lemma DottedIText(u: Unicode)
    requires KnowsDottedI(u)
    ensures PieceText(u, DOTTED_CAPITAL_I) == "i\U{307}"
    ensures DOTTED_CAPITAL_I !in ZERO_WIDTH && "i\U{307}" !in COMPACT_SEPARATORS
  {
    assert |"i\U{307}"| == 2;
    assert forall t :: t in COMPACT_SEPARATORS ==> |t| == 1;
  }

  /** A text of one character that stays and is no separator. */
  lemma SingleCharacter(u: Unicode, c: char)
    requires u.nfkc(c) == [c] && c !in ZERO_WIDTH && !u.space(PieceText(u, c))
    requires PieceText(u, c) != " " && PieceText(u, c) !in COMPACT_SEPARATORS
    ensures
      Normalized(u, [c]) == NormalizedText([c], PieceText(u, c), PieceText(u, c), [0], [0])
  {
    hide PieceText;
    var piece := Piece(PieceText(u, c), 0);
    assert PiecesOf(u, [c], 0, 1) == PiecesOf(u, [c], 0, 0) + [piece] == [piece];
    assert Expanded(u, [c], 1) == Expanded(u, [c], 0) + [piece] == [piece];
    assert Collapsed(u, [piece], 1) == Collapsed(u, [piece], 0) + [piece] == [piece];
    assert Solid([piece], 1) == Solid([piece], 0) + [0] == [0];
    assert Picked([piece], [0]) == [piece];
    assert Joined([piece]) == Joined([piece][..0]) + piece.text == piece.text;
    assert Origins([piece]) == [0];
  }

  /** A text whose maps are shorter than the texts they map. */
  lemma DottedIMisaligned(u: Unicode)
    requires KnowsDottedI(u)
    ensures
      var r := Normalized(u, [DOTTED_CAPITAL_I]);
      && r.normalized == r.compact == "i\U{307}"
      && r.normalizedToRaw == r.compactToNormalized == [0]
  {
    hide Normalized, PieceText;
    DottedIText(u);
    SingleCharacter(u, DOTTED_CAPITAL_I);
  }

  /******* The compact text *******/

  lemma {:induction false} SolidExactly(pieces: seq<Piece>, n: nat)
    requires n <= |pieces|
    ensures
      var solid := Solid(pieces, n);
      && (forall i :: 0 <= i < |solid| ==> solid[i] < n)
      && (forall i, j | 0 <= i < j < |solid| :: solid[i] < solid[j])
      && (forall k :: 0 <= k < n ==> (k in solid <==> pieces[k].text !in COMPACT_SEPARATORS))
  {
    if n > 0 {
      SolidExactly(pieces, n - 1);
    }
  }

  predicate Separator(c: char) {
    [c] in COMPACT_SEPARATORS
  }

  /** When every retained character lowercases to one, the compact map is strictly increasing and in
      range, names exactly the positions of the normalized text that hold no separator, and the
      compact text is what stands there. */
  lemma CompactExactly(u: Unicode, value: string)
    requires OneToOne(u, Truncated(value))
    ensures
      var r := Normalized(u, value);
      && |r.compactToNormalized| == |r.compact|
      && (forall i :: 0 <= i < |r.compact| ==>
            && r.compactToNormalized[i] < |r.normalized|
            && r.compact[i] == r.normalized[r.compactToNormalized[i]])
      && (forall i, j | 0 <= i < j < |r.compactToNormalized| ::
            r.compactToNormalized[i] < r.compactToNormalized[j])
      && (forall k :: 0 <= k < |r.normalized| ==>
            (k in r.compactToNormalized <==> !Separator(r.normalized[k])))
  {
    hide OneToOne, Pieces;
    PiecesOneToOne(u, Truncated(value));
    var pieces := Pieces(u, Truncated(value));
    var solid := Solid(pieces, |pieces|);
    SolidExactly(pieces, |pieces|);
    JoinedChars(pieces);
    var picked := Picked(pieces, solid);
    JoinedChars(picked);
    forall i | 0 <= i < |solid| ensures Joined(picked)[i] == Joined(pieces)[solid[i]] {
      assert [Joined(picked)[i]] == picked[i].text == pieces[solid[i]].text;
      assert [Joined(pieces)[solid[i]]] == pieces[solid[i]].text;
    }
    forall k | 0 <= k < |pieces| ensures pieces[k].text == [Joined(pieces)[k]] {}
  }

  /******* Whitespace *******/

  ghost predicate Tidy(pieces: seq<Piece>) {
    && (pieces != [] ==> pieces[0].text != " ")
    && (forall i :: 0 <= i < |pieces| - 1 ==> pieces[i].text != " " || pieces[i + 1].text != " ")
  }

  lemma {:induction false} CollapsedTidy(u: Unicode, pieces: seq<Piece>, n: nat)
    requires n <= |pieces| && u.space(" ")
    ensures
      var c := Collapsed(u, pieces, n);
      && Tidy(c)
      && (AfterSpace(u, pieces, n) <==> c == [] || c[|c| - 1].text == " ")
  {
    if n > 0 {
      CollapsedTidy(u, pieces, n - 1);
    }
  }

  /** The pieces of a normalized text neither start nor end with a blank, and no two blanks
      follow each other. */
  lemma PiecesTidy(u: Unicode, raw: string)
    requires u.Valid()
    ensures
      var pieces := Pieces(u, raw);
      Tidy(pieces) && (pieces != [] ==> pieces[|pieces| - 1].text != " ")
  {
    var expanded := Expanded(u, raw, |raw|);
    CollapsedTidy(u, expanded, |expanded|);
  }

  lemma TextTidy(u: Unicode, value: string)
    requires u.Valid() && OneToOne(u, Truncated(value))
    ensures
      var text := Normalized(u, value).normalized;
      && (text != "" ==> text[0] != ' ' && text[|text| - 1] != ' ')
      && (forall i :: 0 <= i < |text| - 1 ==> text[i] != ' ' || text[i + 1] != ' ')
  {
    hide OneToOne, Pieces;
    PiecesOneToOne(u, Truncated(value));
    var pieces := Pieces(u, Truncated(value));
    PiecesTidy(u, Truncated(value));
    JoinedChars(pieces);
    var text := Joined(pieces);
    forall i | 0 <= i < |pieces| ensures text[i] == ' ' <==> pieces[i].text == " " {
      assert [text[i]] == pieces[i].text;
    }
  }

  /** Only whitespace is lost: what is no whitespace stays, in order and with its origin. */
  function Words(u: Unicode, pieces: seq<Piece>): seq<Piece> {
    if pieces == [] then []
    else
      var front := Words(u, pieces[..|pieces| - 1]);
      if u.space(pieces[|pieces| - 1].text) then front else front + [pieces[|pieces| - 1]]
  }

  lemma {:induction false} CollapsedWords(u: Unicode, pieces: seq<Piece>, n: nat)
    requires n <= |pieces| && u.space(" ")
    ensures Words(u, Collapsed(u, pieces, n)) == Words(u, pieces[..n])
  {
    if n > 0 {
      CollapsedWords(u, pieces, n - 1);
      assert pieces[..n][..n - 1] == pieces[..n - 1];
      var before := Collapsed(u, pieces, n - 1);
      var c := Collapsed(u, pieces, n);
      if c != before {
        assert c[..|c| - 1] == before;
      }
    }
  }

  lemma WordsKept(u: Unicode, raw: string)
    requires u.Valid()
    ensures Words(u, Pieces(u, raw)) == Words(u, Expanded(u, raw, |raw|))
  {
    var expanded := Expanded(u, raw, |raw|);
    CollapsedWords(u, expanded, |expanded|);
    assert expanded[..|expanded|] == expanded;
  }

  /******* What becomes of each character *******/

  /** The eight full-width marks, and what they become. */
  const FULL_WIDTH := "\U{ff0c}\U{3002}\U{ff01}\U{ff1f}\U{ff1b}\U{ff1a}\U{ff08}\U{ff09}"
  const HALF_WIDTH := ",.!?;:()"

  /** The marks become their half-width forms, and nothing else changes. */
  lemma TranslatedExactly(s: string, k: nat)
    requires k < |s|
    ensures |TranslatedAll(s)| == |s|
    ensures forall m :: 0 <= m < |FULL_WIDTH| && s[k] == FULL_WIDTH[m] ==>
              TranslatedAll(s)[k] == HALF_WIDTH[m]
    ensures s[k] !in FULL_WIDTH ==> TranslatedAll(s)[k] == s[k]
    ensures TranslatedAll(s)[k] !in FULL_WIDTH
  {}

  /** A character of the NFKC form of a character of the text. */
  datatype Place = Place(raw: nat, form: nat)

  ghost predicate Retained(u: Unicode, raw: string, place: Place) {
    && place.raw < |raw| && place.form < |u.nfkc(raw[place.raw])|
    && u.nfkc(raw[place.raw])[place.form] !in ZERO_WIDTH
  }

  /** The piece is that character in lower case and translated, or a blank for a control
      character. */
  ghost predicate ComesFrom(u: Unicode, raw: string, piece: Piece, place: Place) {
    && Retained(u, raw, place) && piece.raw == place.raw
    && var c := u.nfkc(raw[place.raw])[place.form];
    piece.text == TranslatedAll(if u.control(c) then u.lower(' ') else u.lower(c))
  }

  predicate Earlier(a: Place, b: Place) {
    a.raw < b.raw || (a.raw == b.raw && a.form < b.form)
  }

  /** The pieces of the places, one for each, in their order. */
  ghost predicate Traces(u: Unicode, raw: string, pieces: seq<Piece>, places: seq<Place>) {
    && |pieces| == |places|
    && (forall k :: 0 <= k < |pieces| ==> ComesFrom(u, raw, pieces[k], places[k]))
    && (forall i, j | 0 <= i < j < |places| :: Earlier(places[i], places[j]))
  }

  function FormPlaces(form: string, index: nat, n: nat): (places: seq<Place>)
    requires n <= |form|
    ensures forall place :: place in places <==>
              place.raw == index && place.form < n && form[place.form] !in ZERO_WIDTH
    ensures forall i, j | 0 <= i < j < |places| :: Earlier(places[i], places[j])
  {
    if n == 0 then []
    else if form[n - 1] in ZERO_WIDTH then FormPlaces(form, index, n - 1)
    else
      var before := FormPlaces(form, index, n - 1);
      assert forall i :: 0 <= i < |before| ==> before[i] in before;
      before + [Place(index, n - 1)]
  }

  lemma {:induction false} FormTraces(u: Unicode, raw: string, index: nat, n: nat)
    requires index < |raw| && n <= |u.nfkc(raw[index])|
    ensures
      var form := u.nfkc(raw[index]);
      Traces(u, raw, PiecesOf(u, form, index, n), FormPlaces(form, index, n))
  {
    if n > 0 {
      FormTraces(u, raw, index, n - 1);
    }
  }

  ghost function AllPlaces(u: Unicode, raw: string, n: nat): (places: seq<Place>)
    requires n <= |raw|
    ensures forall place :: place in places <==> Retained(u, raw, place) && place.raw < n
  {
    if n == 0 then []
    else
      var form := u.nfkc(raw[n - 1]);
      AllPlaces(u, raw, n - 1) + FormPlaces(form, n - 1, |form|)
  }

  lemma TracesAppend(u: Unicode, raw: string, a: seq<Piece>, pa: seq<Place>, b: seq<Piece>,
                     pb: seq<Place>)
    requires Traces(u, raw, a, pa) && Traces(u, raw, b, pb)
    requires forall p, q | p in pa && q in pb :: p.raw < q.raw
    ensures Traces(u, raw, a + b, pa + pb)
  {
    hide ComesFrom;
    forall i, j | 0 <= i < j < |pa + pb| ensures Earlier((pa + pb)[i], (pa + pb)[j]) {
      if i < |pa| <= j {
        assert pa[i] in pa && pb[j - |pa|] in pb;
      }
    }
  }

  lemma {:induction false} ExpandedTraces(u: Unicode, raw: string, n: nat)
    requires n <= |raw|
    ensures Traces(u, raw, Expanded(u, raw, n), AllPlaces(u, raw, n))
  {
    hide Traces, Retained;
    if n == 0 {
      NoTraces(u, raw);
    } else {
      ExpandedTraces(u, raw, n - 1);
      var form := u.nfkc(raw[n - 1]);
      FormTraces(u, raw, n - 1, |form|);
      TracesAppend(u, raw, Expanded(u, raw, n - 1), AllPlaces(u, raw, n - 1),
                   PiecesOf(u, form, n - 1, |form|), FormPlaces(form, n - 1, |form|));
    }
  }

  lemma NoTraces(u: Unicode, raw: string)
    ensures Traces(u, raw, [], [])
  {}

  /** Before whitespace is collapsed there is one piece for every character of every NFKC form that
      has a width, in the order of the text, and no other. */
  lemma ExpandedExactly(u: Unicode, raw: string)
    ensures exists places ::
              && Traces(u, raw, Expanded(u, raw, |raw|), places)
              && forall place :: place in places <==> Retained(u, raw, place)
  {
    ExpandedTraces(u, raw, |raw|);
    var places := AllPlaces(u, raw, |raw|);
    assert forall place :: place in places <==> Retained(u, raw, place);
  }
}
