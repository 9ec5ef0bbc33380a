/**
 * The scan of a JSON text for surrogates that are not escaped in pairs. A JSON text is described here as
 * a syntax tree after section 2 of RFC 8259; strings are made of the pieces of its section 7.
 */
module JsonScan {

  // ------------------------------------------------------------------------ the grammar

  /** A character of a string as it is written: itself, a two-character escape, or a \u escape. */
  datatype Piece = Raw(c: char) | Escape(c: char) | Unicode(digits: string)

  /** A value with the white space around its parts. Atoms are literals and numbers. */
  datatype Json =
    | Atom(text: string)
    | Str(pieces: seq<Piece>)
    | Arr(gap: string, items: Items)
    | Obj(gap: string, members: Members)

  datatype Items = NoItems | Item(before: string, value: Json, after: string, rest: Items)

  datatype Members =
    | NoMembers
    | Member(before: string, key: seq<Piece>, afterKey: string, beforeValue: string, value: Json, after: string,
      rest: Members)

  predicate IsHex(c: char) { '0' <= c <= '9' || 'a' <= c <= 'f' || 'A' <= c <= 'F' }

  predicate PieceOk(p: Piece) {
    match p
    case Raw(c) => c != '\"' && c != '\\'
    case Escape(c) => c in "\"\\/bfnrt"
    case Unicode(digits) => |digits| == 4 && forall i :: 0 <= i < 4 ==> IsHex(digits[i])
  }

  predicate PiecesOk(pieces: seq<Piece>) { forall i :: 0 <= i < |pieces| ==> PieceOk(pieces[i]) }

  /** Text outside strings has neither quotes nor backslashes. */
  predicate Bare(text: string) { forall i :: 0 <= i < |text| ==> text[i] != '\"' && text[i] != '\\' }

  predicate JsonOk(j: Json) {
    match j
    case Atom(text) => Bare(text)
    case Str(pieces) => PiecesOk(pieces)
    case Arr(gap, items) => Bare(gap) && ItemsOk(items)
    case Obj(gap, members) => Bare(gap) && MembersOk(members)
  }

  predicate ItemsOk(items: Items) {
    match items
    case NoItems => true
    case Item(before, value, after, rest) => Bare(before) && JsonOk(value) && Bare(after) && ItemsOk(rest)
  }

  predicate MembersOk(members: Members) {
    match members
    case NoMembers => true
    case Member(before, key, afterKey, beforeValue, value, after, rest) =>
      Bare(before) && PiecesOk(key) && Bare(afterKey) && Bare(beforeValue) && JsonOk(value) && Bare(after)
        && MembersOk(rest)
  }

  // -------------------------------------------------------------------------- its text

  /** The smallest parts of a text: a character outside strings, a quotation mark, or a piece of a string. */
  datatype Unit = Out(c: char) | Quote | In(piece: Piece)

  predicate UnitOk(u: Unit) {
    match u
    case Out(c) => c != '\"' && c != '\\'
    case Quote => true
    case In(p) => PieceOk(p)
  }

  function PieceText(p: Piece): (r: string) {
    match p
    case Raw(c) => [c]
    case Escape(c) => ['\\', c]
    case Unicode(digits) => ['\\', 'u'] + digits
  }

  function UnitText(u: Unit): (r: string) {
    match u
    case Out(c) => [c]
    case Quote => "\""
    case In(p) => PieceText(p)
  }

  function Text(units: seq<Unit>): (r: string) { if units == [] then "" else UnitText(units[0]) + Text(units[1..]) }

  function Outside(text: string): (r: seq<Unit>)
    ensures |r| == |text| && forall i :: 0 <= i < |r| ==> r[i] == Out(text[i])
  {
    seq(|text|, i requires 0 <= i < |text| => Out(text[i]))
  }

  function Quoted(pieces: seq<Piece>): (r: seq<Unit>) { [Quote] + Inner(pieces) + [Quote] }

  function Inner(pieces: seq<Piece>): (r: seq<Unit>)
    ensures |r| == |pieces| && forall i :: 0 <= i < |r| ==> r[i] == In(pieces[i])
  {
    seq(|pieces|, i requires 0 <= i < |pieces| => In(pieces[i]))
  }

  /** The units of a value, in order. */
  function Units(j: Json): (r: seq<Unit>) {
    match j
    case Atom(text) => Outside(text)
    case Str(pieces) => Quoted(pieces)
    case Arr(gap, items) => Outside("[" + gap) + ItemUnits(items) + Outside("]")
    case Obj(gap, members) => Outside("{" + gap) + MemberUnits(members) + Outside("}")
  }

  function ItemUnits(items: Items): (r: seq<Unit>) {
    match items
    case NoItems => []
    case Item(before, value, after, rest) =>
      Outside(before) + Units(value) + Outside(if rest.NoItems? then after else after + ",") + ItemUnits(rest)
  }

  function MemberUnits(members: Members): (r: seq<Unit>) {
    match members
    case NoMembers => []
    case Member(before, key, afterKey, beforeValue, value, after, rest) =>
      Outside(before) + Quoted(key) + Outside(afterKey + ":" + beforeValue) + Units(value)
      + Outside(if rest.NoMembers? then after else after + ",") + MemberUnits(rest)
  }

  /** The whole text: a value with white space around it. */
  function Document(before: string, j: Json, after: string): (r: seq<Unit>)
  {
    Outside(before) + Units(j) + Outside(after)
  }

  // -------------------------------------------------------------------------- surrogates

  function HexValue(c: char): (n: nat)
    requires IsHex(c)
    ensures n < 16
  {
    if '0' <= c <= '9' then c as int - '0' as int else if 'a' <= c <= 'f'
                                                       then c as int - 'a' as int + 10 else c as int - 'A' as int + 10
  }

  function Code(digits: string): (n: nat)
    requires |digits| == 4 && forall i :: 0 <= i < 4 ==> IsHex(digits[i])
    ensures n < 0x1_0000
  {
    HexValue(digits[0]) * 0x1000 + HexValue(digits[1]) * 0x100 + HexValue(digits[2]) * 0x10 + HexValue(digits[3])
  }

  predicate High(p: Piece) { p.Unicode? && PieceOk(p) && 0xD800 <= Code(p.digits) <= 0xDBFF }

  predicate Low(p: Piece) { p.Unicode? && PieceOk(p) && 0xDC00 <= Code(p.digits) <= 0xDFFF }

  /** Every high surrogate is followed by a low one, and every low one follows a high one. */
  predicate WellPaired(pieces: seq<Piece>) { forall i :: 0 <= i < |pieces| ==> PairedPiece(pieces, i) }

  predicate PairedPiece(pieces: seq<Piece>, i: nat)
    requires i < |pieces|
  {
    && (High(pieces[i]) ==> i + 1 < |pieces| && Low(pieces[i + 1]))
    && (Low(pieces[i]) ==> i > 0 && High(pieces[i - 1]))
  }

  /** Every string of a value, keys included, is well paired. */
  predicate AllPaired(j: Json) {
    match j
    case Atom(_) => true
    case Str(pieces) => WellPaired(pieces)
    case Arr(_, items) => ItemsPaired(items)
    case Obj(_, members) => MembersPaired(members)
  }

  predicate ItemsPaired(items: Items) {
    match items
    case NoItems => true
    case Item(_, value, _, rest) => AllPaired(value) && ItemsPaired(rest)
  }

  predicate MembersPaired(members: Members) {
    match members
    case NoMembers => true
    case Member(_, key, _, _, value, _, rest) => WellPaired(key) && AllPaired(value) && MembersPaired(rest)
  }

  predicate HighUnit(u: Unit) { u.In? && High(u.piece) }

  predicate LowUnit(u: Unit) { u.In? && Low(u.piece) }

  /** The same, said of one unit of a text. */
  predicate PairedAt(units: seq<Unit>, i: nat)
    requires i < |units|
  {
    && (HighUnit(units[i]) ==> i + 1 < |units| && LowUnit(units[i + 1]))
    && (LowUnit(units[i]) ==> i > 0 && HighUnit(units[i - 1]))
  }

  predicate UnitsPaired(units: seq<Unit>) { forall i :: 0 <= i < |units| ==> PairedAt(units, i) }

  // ------------------------------------------------------------ from values to their units

  /** Units that neither begin nor end within a string pair up on their own. */
  predicate Closed(units: seq<Unit>) {
    units != [] ==> !units[0].In? && !units[|units| - 1].In?
  }

  lemma SameAt(a: seq<Unit>, b: seq<Unit>, i: nat)
    requires Closed(a) && Closed(b) && i < |a| + |b|
    ensures PairedAt(a + b, i) == if i < |a| then PairedAt(a, i) else PairedAt(b, i - |a|)
  {
    hide High, Low;
    var c := a + b;
    if i < |a| {
      assert c[i] == a[i];
      if i > 0 { assert c[i - 1] == a[i - 1]; }
      if i + 1 < |a| { assert c[i + 1] == a[i + 1]; }
    } else {
      var j := i - |a|;
      assert c[i] == b[j];
      if j > 0 { assert c[i - 1] == b[j - 1]; }
      if j + 1 < |b| { assert c[i + 1] == b[j + 1]; }
    }
  }

  lemma PairedParts(a: seq<Unit>, b: seq<Unit>)
    requires Closed(a) && Closed(b)
    ensures Closed(a + b) && (UnitsPaired(a + b) <==> UnitsPaired(a) && UnitsPaired(b))
  {
    hide PairedAt;
    var c := a + b;
    forall i | 0 <= i < |c| ensures PairedAt(c, i) == if i < |a| then PairedAt(a, i) else PairedAt(b, i - |a|) {
      SameAt(a, b, i);
    }
    if UnitsPaired(c) {
      forall i | 0 <= i < |a| ensures PairedAt(a, i) { assert PairedAt(c, i); }
      forall i | 0 <= i < |b| ensures PairedAt(b, i) { assert PairedAt(c, |a| + i); }
    }
  }

  lemma OutsideIsPaired(text: string)
    ensures Closed(Outside(text)) && UnitsPaired(Outside(text))
  {
  }

  lemma QuotedIsPaired(pieces: seq<Piece>)
    ensures Closed(Quoted(pieces)) && (UnitsPaired(Quoted(pieces)) <==> WellPaired(pieces))
  {
    hide PairedAt, PairedPiece;
    var u := Quoted(pieces);
    forall i | 0 <= i < |u| ensures PairedAt(u, i) == (if 0 < i < |u| - 1 then PairedPiece(pieces, i - 1) else true) {
      QuotedAt(pieces, i);
    }
    if UnitsPaired(u) {
      forall i | 0 <= i < |pieces| ensures PairedPiece(pieces, i) { assert PairedAt(u, i + 1); }
    }
  }

  lemma QuotedAt(pieces: seq<Piece>, i: nat)
    requires i < |pieces| + 2
    ensures var u := Quoted(pieces);
            |u| == |pieces| + 2 && PairedAt(u, i) == (if 0 < i < |u| - 1 then PairedPiece(pieces, i - 1) else true)
  {
    hide High, Low;
    var u := Quoted(pieces);
    assert u[0] == Quote && u[|u| - 1] == Quote;
    assert forall k :: 1 <= k <= |pieces| ==> u[k] == In(pieces[k - 1]);
  }

  lemma {:induction false} ValuePaired(j: Json)
    ensures Closed(Units(j)) && (UnitsPaired(Units(j)) <==> AllPaired(j))
    decreases j
  {
    hide Closed, UnitsPaired, Outside, Quoted, WellPaired;
    match j
    case Atom(text) => OutsideIsPaired(text);
    case Str(pieces) => QuotedIsPaired(pieces);
    case Arr(gap, items) =>
      ItemsPairedToo(items);
      OutsideIsPaired("[" + gap);
      OutsideIsPaired("]");
      PairedParts(Outside("[" + gap), ItemUnits(items));
      PairedParts(Outside("[" + gap) + ItemUnits(items), Outside("]"));
    case Obj(gap, members) =>
      MembersPairedToo(members);
      OutsideIsPaired("{" + gap);
      OutsideIsPaired("}");
      PairedParts(Outside("{" + gap), MemberUnits(members));
      PairedParts(Outside("{" + gap) + MemberUnits(members), Outside("}"));
  }

  lemma NothingIsPaired()
    ensures Closed([]) && UnitsPaired([])
  {
  }

  lemma {:induction false} ItemsPairedToo(items: Items)
    ensures Closed(ItemUnits(items)) && (UnitsPaired(ItemUnits(items)) <==> ItemsPaired(items))
    decreases items
  {
    hide Closed, UnitsPaired, Outside, AllPaired;
    match items
    case NoItems => NothingIsPaired();
    case Item(before, value, after, rest) =>
      var end := if rest.NoItems? then after else after + ",";
      ValuePaired(value);
      ItemsPairedToo(rest);
      OutsideIsPaired(before);
      OutsideIsPaired(end);
      PairedParts(Outside(before), Units(value));
      PairedParts(Outside(before) + Units(value), Outside(end));
      PairedParts(Outside(before) + Units(value) + Outside(end), ItemUnits(rest));
  }

  lemma {:induction false} MembersPairedToo(members: Members)
    ensures Closed(MemberUnits(members)) && (UnitsPaired(MemberUnits(members)) <==> MembersPaired(members))
    decreases members
  {
    hide Closed, UnitsPaired, Outside, AllPaired, Quoted, WellPaired;
    match members
    case NoMembers => NothingIsPaired();
    case Member(before, key, afterKey, beforeValue, value, after, rest) =>
      var middle := afterKey + ":" + beforeValue;
      var end := if rest.NoMembers? then after else after + ",";
      ValuePaired(value);
      MembersPairedToo(rest);
      QuotedIsPaired(key);
      OutsideIsPaired(before);
      OutsideIsPaired(middle);
      OutsideIsPaired(end);
      PairedParts(Outside(before), Quoted(key));
      PairedParts(Outside(before) + Quoted(key), Outside(middle));
      PairedParts(Outside(before) + Quoted(key) + Outside(middle), Units(value));
      PairedParts(Outside(before) + Quoted(key) + Outside(middle) + Units(value), Outside(end));
      PairedParts(Outside(before) + Quoted(key) + Outside(middle) + Units(value) + Outside(end), MemberUnits(rest));
  }

  // ----------------------------------------------------------------- shape of a text

  /** Where quotation marks open and close strings: pieces lie inside, everything else outside. */
  predicate Shaped(units: seq<Unit>, inside: bool)
    decreases |units|
  {
    if units == [] then !inside
    else UnitOk(units[0])
         && (if units[0].Quote? then Shaped(units[1..], !inside) else units[0].In? == inside
                                                                      && Shaped(units[1..], inside))
  }

  lemma {:induction false} ShapedMore(a: seq<Unit>, b: seq<Unit>, inside: bool)
    requires Shaped(a, inside) && Shaped(b, false)
    ensures Shaped(a + b, inside)
    decreases |a|
  {
    if a == [] {
      assert a + b == b;
    } else {
      assert (a + b)[0] == a[0] && (a + b)[1..] == a[1..] + b;
      ShapedMore(a[1..], b, if a[0].Quote? then !inside else inside);
    }
  }

  lemma {:induction false} OutsideIsShaped(text: string)
    requires Bare(text)
    ensures Shaped(Outside(text), false)
    decreases |text|
  {
    if text != "" {
      OutsideIsShaped(text[1..]);
      assert Outside(text)[1..] == Outside(text[1..]);
    }
  }

  lemma {:induction false} InnerIsShaped(pieces: seq<Piece>)
    requires PiecesOk(pieces)
    ensures Shaped(Inner(pieces) + [Quote], true)
    decreases |pieces|
  {
    var u := Inner(pieces) + [Quote];
    if pieces == [] {
      assert u == [Quote] && u[1..] == [];
    } else {
      InnerIsShaped(pieces[1..]);
      assert u[0] == In(pieces[0]) && u[1..] == Inner(pieces[1..]) + [Quote];
    }
  }

  lemma QuotedIsShaped(pieces: seq<Piece>)
    requires PiecesOk(pieces)
    ensures Shaped(Quoted(pieces), false)
  {
    InnerIsShaped(pieces);
    assert Quoted(pieces)[1..] == Inner(pieces) + [Quote];
  }

  lemma BareJoin(a: string, b: string)
    requires Bare(a) && Bare(b)
    ensures Bare(a + b)
  {
  }

  lemma {:induction false} ValueIsShaped(j: Json)
    requires JsonOk(j)
    ensures Shaped(Units(j), false)
    decreases j
  {
    hide Shaped, Outside, Quoted;
    match j
    case Atom(text) => OutsideIsShaped(text);
    case Str(pieces) => QuotedIsShaped(pieces);
    case Arr(gap, items) =>
      ItemsAreShaped(items);
      BareJoin("[", gap);
      Around("[" + gap, ItemUnits(items), "]");
    case Obj(gap, members) =>
      MembersAreShaped(members);
      BareJoin("{", gap);
      Around("{" + gap, MemberUnits(members), "}");
  }

  lemma Around(before: string, units: seq<Unit>, after: string)
    requires Bare(before) && Bare(after) && Shaped(units, false)
    ensures Shaped(Outside(before) + units + Outside(after), false)
  {
    hide Shaped, Outside;
    OutsideIsShaped(before);
    OutsideIsShaped(after);
    ShapedMore(Outside(before), units, false);
    ShapedMore(Outside(before) + units, Outside(after), false);
  }

  lemma NothingIsShaped()
    ensures Shaped([], false)
  {
  }

  lemma {:induction false} ItemsAreShaped(items: Items)
    requires ItemsOk(items)
    ensures Shaped(ItemUnits(items), false)
    decreases items
  {
    hide Shaped, Outside;
    match items
    case NoItems => NothingIsShaped();
    case Item(before, value, after, rest) =>
      var end := if rest.NoItems? then after else after + ",";
      BareJoin(after, ",");
      ValueIsShaped(value);
      ItemsAreShaped(rest);
      Around(before, Units(value), end);
      ShapedMore(Outside(before) + Units(value) + Outside(end), ItemUnits(rest), false);
  }

  lemma {:induction false} MembersAreShaped(members: Members)
    requires MembersOk(members)
    ensures Shaped(MemberUnits(members), false)
    decreases members
  {
    hide Shaped, Outside, Quoted;
    match members
    case NoMembers => NothingIsShaped();
    case Member(before, key, afterKey, beforeValue, value, after, rest) =>
      var middle := afterKey + ":" + beforeValue;
      var end := if rest.NoMembers? then after else after + ",";
      BareJoin(afterKey, ":");
      BareJoin(afterKey + ":", beforeValue);
      BareJoin(after, ",");
      QuotedIsShaped(key);
      ValueIsShaped(value);
      MembersAreShaped(rest);
      OutsideIsShaped(end);
      Around(before, Quoted(key), middle);
      ShapedMore(Outside(before) + Quoted(key) + Outside(middle), Units(value), false);
      ShapedMore(Outside(before) + Quoted(key) + Outside(middle) + Units(value), Outside(end), false);
      ShapedMore(Outside(before) + Quoted(key) + Outside(middle) + Units(value) + Outside(end), MemberUnits(rest),
        false);
  }

  // ------------------------------------------------------------------------- the scan

  /** The parsed value of four hexadecimal digits. */
  method ParseHex(digits: string) returns (n: nat)
    requires |digits| == 4 && forall i :: 0 <= i < 4 ==> IsHex(digits[i])
    ensures n == Code(digits)
  {
    n := 0;
    for i := 0 to 4
      invariant i == 0 ==> n == 0
      invariant i == 1 ==> n == HexValue(digits[0])
      invariant i == 2 ==> n == HexValue(digits[0]) * 0x10 + HexValue(digits[1])
      invariant i == 3 ==> n == HexValue(digits[0]) * 0x100 + HexValue(digits[1]) * 0x10 + HexValue(digits[2])
      invariant i == 4 ==> n == Code(digits)
    {
      n := n * 0x10 + HexValue(digits[i]);
    }
  }

  /** What the text looks like at the start of unit `k`. */
  lemma TextAt(units: seq<Unit>, k: nat)
    requires k < |units|
    ensures Text(units[k..]) == UnitText(units[k]) + Text(units[k + 1..])
  {
    assert units[k..][0] == units[k] && units[k..][1..] == units[k + 1..];
  }

  lemma ShapedAt(units: seq<Unit>, k: nat, inside: bool)
    requires k < |units| && Shaped(units[k..], inside)
    ensures UnitOk(units[k]) && (units[k].In? ==> inside) && (units[k].Out? ==> !inside)
    ensures Shaped(units[k + 1..], if units[k].Quote? then !inside else inside)
    ensures inside ==> k + 1 < |units| || units[k].Quote?
  {
    assert units[k..][0] == units[k] && units[k..][1..] == units[k + 1..];
  }

  /** All units before `k` are paired, and none of them is a high surrogate waiting for unit `k`. */
  ghost predicate Done(units: seq<Unit>, k: nat)
    requires k <= |units|
  {
    (forall i :: 0 <= i < k ==> PairedAt(units, i)) && (k > 0 ==> !HighUnit(units[k - 1]))
  }


  lemma DoneNext(units: seq<Unit>, k: nat)
    requires k < |units| && Done(units, k) && !HighUnit(units[k]) && !LowUnit(units[k])
    ensures Done(units, k + 1)
  {
    hide HighUnit, LowUnit;
  }

  lemma DoneTwo(units: seq<Unit>, k: nat)
    requires k + 1 < |units| && Done(units, k) && HighUnit(units[k]) && LowUnit(units[k + 1])
    ensures Done(units, k + 2)
  {
    assert !LowUnit(units[k]) && !HighUnit(units[k + 1]);
    hide HighUnit, LowUnit;
    assert PairedAt(units, k) && PairedAt(units, k + 1);
  }

  lemma LoneLow(units: seq<Unit>, k: nat)
    requires k < |units| && Done(units, k) && LowUnit(units[k])
    ensures !UnitsPaired(units)
  {
    hide HighUnit, LowUnit;
    assert !PairedAt(units, k);
  }

  lemma LoneHigh(units: seq<Unit>, k: nat)
    requires k < |units| && HighUnit(units[k]) && (k + 1 < |units| ==> !LowUnit(units[k + 1]))
    ensures !UnitsPaired(units)
  {
    assert !PairedAt(units, k);
  }

  /** A position in a text: the next unit starts here. */
  ghost predicate At(data: string, index: nat, inside: bool, units: seq<Unit>, k: nat) {
    index <= |data| && k <= |units| && data[index..] == Text(units[k..]) && Shaped(units[k..], inside)
  }

  /** What the character at a position says about the unit that starts there. */
  lemma Look(data: string, index: nat, inside: bool, units: seq<Unit>, k: nat)
    requires At(data, index, inside, units, k) && index < |data|
    ensures k < |units| && UnitOk(units[k]) && index + |UnitText(units[k])| <= |data|
    ensures data[index..index + |UnitText(units[k])|] == UnitText(units[k])
    ensures data[index] == '\"' <==> units[k].Quote?
    ensures inside && data[index] == '\\' <==> units[k].In? && !units[k].piece.Raw?
    ensures At(data, index + |UnitText(units[k])|, if units[k].Quote? then !inside else inside, units, k + 1)
  {
    assert units[k..] != [];
    TextAt(units, k);
    ShapedAt(units, k, inside);
    UnitStarts(units[k]);
    hide Text, Shaped, UnitText, UnitOk;
    SplitAt(data, index, UnitText(units[k]), Text(units[k + 1..]));
  }

  lemma SplitAt(data: string, index: nat, t: string, rest: string)
    requires index <= |data| && data[index..] == t + rest && t != ""
    ensures index + |t| <= |data| && data[index..index + |t|] == t && data[index + |t|..] == rest && data[index] == t[0]
  {
    assert data[index..][..|t|] == t && data[index..][|t|..] == rest;
    assert data[index..][0] == data[index];
  }

  /** The first character of a unit tells what kind of unit it is. */
  lemma UnitStarts(u: Unit)
    requires UnitOk(u)
    ensures UnitText(u) != ""
    ensures UnitText(u)[0] == '\"' <==> u.Quote?
    ensures UnitText(u)[0] == '\\' <==> u.In? && !u.piece.Raw?
  {
  }

  /** Inside a string the text goes on for at least one more unit. */
  lemma GoesOn(data: string, index: nat, units: seq<Unit>, k: nat)
    requires At(data, index, true, units, k)
    ensures index < |data|
  {
    assert units[k..] != [];
    TextAt(units, k);
    hide Text;
    assert |UnitText(units[k])| > 0 by { ShapedAt(units, k, true); }
  }

  /** The text from a position on starts another \u escape exactly when the next unit is one, and then it fits. */
  lemma LookAhead(data: string, p: nat, units: seq<Unit>, k: nat)
    requires At(data, p, true, units, k)
    ensures p < |data| && k < |units|
    ensures p + 5 < |data| && data[p] == '\\' && data[p + 1] == 'u' <==> units[k].In? && units[k].piece.Unicode?
    ensures units[k].In? && units[k].piece.Unicode? ==> PieceOk(units[k].piece)
                                                        && data[p + 2..p + 6] == units[k].piece.digits
  {
    GoesOn(data, p, units, k);
    Look(data, p, true, units, k);
    hide At;
    if units[k].In? && units[k].piece.Unicode? {
      var t := UnitText(units[k]);
      assert |t| == 6;
      assert data[p..p + 6][2..] == data[p + 2..p + 6];
      assert data[p..p + 6][0] == data[p] && data[p..p + 6][1] == data[p + 1];
    } else if units[k].In? && units[k].piece.Escape? {
      assert data[p..p + 2][1] == data[p + 1];
    }
  }

  /** Reads the second half of a pair; `index` is at the last digit of the high surrogate. */
  method ScanPair(data: string, index: nat, ghost units: seq<Unit>, ghost k: nat) returns (ok: bool)
    requires k < |units| && At(data, index + 1, true, units, k + 1) && Done(units, k) && HighUnit(units[k])
    ensures !ok ==> !UnitsPaired(units)
    ensures ok ==> index + 7 <= |data| && k + 2 <= |units| && At(data, index + 7, true, units, k + 2)
                   && Done(units, k + 2)
  {
    hide At, Done, UnitsPaired, Code, PieceOk, HighUnit, LowUnit;
    LookAhead(data, index + 1, units, k + 1);
    if index + 6 >= |data| || data[index + 1] != '\\' || data[index + 2] != 'u' {
      NotUnicodeNotLow(units[k + 1]);
      LoneHigh(units, k);
      return false;
    }
    Look(data, index + 1, true, units, k + 1);
    EscapeText(units[k + 1]);
    assert data[index + 3..index + 7] == units[k + 1].piece.digits;
    var low := ParseHex(data[index + 3..index + 7]);
    Classify(units[k + 1]);
    if low < 0xDC00 || low > 0xDFFF {
      LoneHigh(units, k);
      return false;
    }
    DoneTwo(units, k);
    ok := true;
  }

  lemma NotUnicodeNotLow(u: Unit)
    ensures !(u.In? && u.piece.Unicode?) ==> !LowUnit(u)
  {
  }

  /**
   * Reads an escape that starts at `index`; on success `next` is the position behind it, or behind the pair it
   * begins.
   */
  method ScanEscape(data: string, index: nat, ghost units: seq<Unit>, ghost k: nat)
      returns (ok: bool, next: nat, ghost taken: nat)
    requires At(data, index, true, units, k) && index < |data| && data[index] == '\\' && k <= |units| && Done(units, k)
    ensures !ok ==> !UnitsPaired(units)
    ensures ok ==> index < next <= |data| && k + taken <= |units| && At(data, next, true, units, k + taken)
                   && Done(units, k + taken)
  {
    hide At, Done, UnitsPaired, Code, PieceOk, HighUnit, LowUnit;
    Look(data, index, true, units, k);
    EscapeText(units[k]);
    ghost var t := UnitText(units[k]);
    assert data[index..index + |t|][1] == data[index + 1];
    hide UnitText;
    taken := 1;
    if data[index + 1] != 'u' {
      DoneNext(units, k);
      return true, index + 2, taken;
    }
    assert data[index..index + 6][2..] == data[index + 2..index + 6];
    var code := ParseHex(data[index + 2..index + 6]);
    Classify(units[k]);
    if 0xDC00 <= code <= 0xDFFF {
      LoneLow(units, k);
      return false, index, taken;
    }
    if code < 0xD800 || code > 0xDBFF {
      DoneNext(units, k);
      return true, index + 6, taken;
    }
    ok := ScanPair(data, index + 5, units, k);
    next, taken := index + 12, 2;
  }

  /** The scan never leaves the text and accepts exactly the texts whose escaped surrogates are paired. */
  method Scan(data: string, ghost units: seq<Unit>) returns (ok: bool)
    requires data == Text(units) && Shaped(units, false)
    ensures ok <==> UnitsPaired(units)
  {
    Starts(data, units);
    hide *;
    var inside, index := false, 0;
    ghost var k := 0;
    while index < |data|
      invariant 0 <= index <= |data| && 0 <= k <= |units| && At(data, index, inside, units, k) && Done(units, k)
      decreases |data| - index
    {
      PlainStep(data, index, inside, units, k);
      if data[index] == '\"' {
        inside, index, k := !inside, index + 1, k + 1;
      } else if !inside || data[index] != '\\' {
        index, k := index + 1, k + 1;
      } else {
        var next;
        ghost var taken;
        ok, next, taken := ScanEscape(data, index, units, k);
        if !ok { return; }
        index, k := next, k + taken;
      }
    }
    AtEnd(data, index, inside, units, k);
    ok := true;
  }

  lemma Starts(data: string, units: seq<Unit>)
    requires data == Text(units) && Shaped(units, false)
    ensures At(data, 0, false, units, 0) && Done(units, 0)
  {
    assert units[0..] == units && data[0..] == data;
  }

  /** Stepping over one character that is no escape. */
  lemma PlainStep(data: string, index: nat, inside: bool, units: seq<Unit>, k: nat)
    requires At(data, index, inside, units, k) && index < |data| && k <= |units| && Done(units, k)
    ensures !(inside && data[index] == '\\') ==>
              k < |units| && At(data, index + 1, if data[index] == '\"' then !inside else inside, units, k + 1)
                && Done(units, k + 1)
  {
    hide At, Done;
    Look(data, index, inside, units, k);
    PlainUnit(units[k]);
    hide UnitText;
    if !(inside && data[index] == '\\') { DoneNext(units, k); }
  }

  /** A unit that is no escape is one character long and no surrogate. */
  lemma PlainUnit(u: Unit)
    ensures !(u.In? && !u.piece.Raw?) ==> |UnitText(u)| == 1 && !HighUnit(u) && !LowUnit(u)
  {
  }

  lemma EscapeText(u: Unit)
    requires UnitOk(u) && u.In? && !u.piece.Raw?
    ensures u.piece.Escape? ==> |UnitText(u)| == 2 && UnitText(u)[1] != 'u' && !HighUnit(u) && !LowUnit(u)
    ensures u.piece.Unicode? ==> |UnitText(u)| == 6 && UnitText(u)[1] == 'u' && UnitText(u)[2..] == u.piece.digits
                                 && |u.piece.digits| == 4
                                 && forall i :: 0 <= i < 4 ==> IsHex(u.piece.digits[i])
  {
  }

  lemma Classify(u: Unit)
    requires u.In? && u.piece.Unicode? && UnitOk(u) && |u.piece.digits| == 4
             && forall i :: 0 <= i < 4 ==> IsHex(u.piece.digits[i])
    ensures HighUnit(u) <==> 0xD800 <= Code(u.piece.digits) <= 0xDBFF
    ensures LowUnit(u) <==> 0xDC00 <= Code(u.piece.digits) <= 0xDFFF
  {
  }

  lemma AtEnd(data: string, index: nat, inside: bool, units: seq<Unit>, k: nat)
    requires At(data, index, inside, units, k) && index == |data| && k <= |units| && Done(units, k)
    ensures UnitsPaired(units)
  {
    if k < |units| {
      TextAt(units, k);
      ShapedAt(units, k, inside);
      assert false;
    }
  }

  /** On every JSON text the scan accepts exactly when every string of the value is well paired. */
  method ValidateEncoding(data: string, ghost before: string, ghost j: Json, ghost after: string) returns (ok: bool)
    requires Bare(before) && Bare(after) && JsonOk(j) && data == Text(Document(before, j, after))
    ensures ok <==> AllPaired(j)
  {
    DocumentIs(before, j, after);
    hide Text, Shaped, UnitsPaired, Document;
    ok := Scan(data, Document(before, j, after));
  }

  lemma DocumentIs(before: string, j: Json, after: string)
    requires Bare(before) && Bare(after) && JsonOk(j)
    ensures Shaped(Document(before, j, after), false) && (UnitsPaired(Document(before, j, after)) <==> AllPaired(j))
  {
    hide Shaped, UnitsPaired, Closed, Outside, Units;
    ValueIsShaped(j);
    Around(before, Units(j), after);
    ValuePaired(j);
    OutsideIsPaired(before);
    OutsideIsPaired(after);
    PairedParts(Outside(before), Units(j));
    PairedParts(Outside(before) + Units(j), Outside(after));
  }
}
