/**
  Pretty printing with span tracking.  `SpanPrinter.FormatUnified` writes one text
  and overwrites entries of one span map as it goes; the theorems say what the map
  holds in the end.

  Text is a sequence of UTF-8 code units, so lengths are byte positions.
 */
module Spans {
  import opened Wrappers

  type Text = string

  datatype Segment = SegField(name: Text) | SegVariant(name: Text) | SegIndex(i: nat) | SegKey(text: Text)

  type Path = seq<Segment>

  datatype Span = Span(start: nat, end: nat)

  datatype FieldSpan = FieldSpan(key: Span, value: Span)

  datatype FieldValue = FieldValue(name: Text, value: Value)

  /** A map entry; `keyText` is the key as `format_peek` prints it. */
  datatype Entry = Entry(key: Value, keyText: Text, value: Value)

  /** A value, already classified the way `format_unified` matches on its shape. */
  datatype Value =
    | VString(s: Text)
    | VScalar(text: Text)
    | VNone
    | VSome(inner: Value)
    | VResult(shape: Text, isOk: bool, inner: Value)
    | VUnit(shape: Text)
    | VStruct(shape: Text, fields: seq<FieldValue>)
    | VTuple(shape: Text, isTuple: bool, elems: seq<Value>)
    | VEnumUnit(shape: Text, variant: Text)
    | VEnumStruct(shape: Text, variant: Text, fields: seq<FieldValue>)
    | VEnumTuple(shape: Text, variant: Text, elems: seq<Value>)
    | VEnumUnknown(shape: Text)
    | VList(simple: bool, elems: seq<Value>)
    | VMap(entries: seq<Entry>)
    | VProxied(proxy: Value)
    | VOther(shape: Text)
    | VPointer(pointee: Value)

  // ---------------------------------------------------------------- layout

  /** What is written for a value, in order: fixed text and places for other values. */
  datatype Piece =
    | Lit(text: Text)
    | Inner(value: Value, depth: nat, short: bool)
    | Elem(suffix: Path, value: Value, depth: nat, short: bool)
    | Named(suffix: Path, name: Text, value: Value, depth: nat, short: bool)
    | Keyed(suffix: Path, key: Value, value: Value, depth: nat, short: bool)

  function Weight(v: Value): nat {
    match v
    case VSome(inner) => 1 + Weight(inner)
    case VResult(_, _, inner) => 1 + Weight(inner)
    case VStruct(_, fields) => 1 + FieldsWeight(fields)
    case VTuple(_, _, elems) => 1 + ElemsWeight(elems)
    case VEnumStruct(_, _, fields) => 1 + FieldsWeight(fields)
    case VEnumTuple(_, _, elems) => 1 + ElemsWeight(elems)
    case VList(_, elems) => 1 + ElemsWeight(elems)
    case VMap(entries) => 1 + EntriesWeight(entries)
    case VProxied(proxy) => 1 + Weight(proxy)
    case VPointer(pointee) => 1 + Weight(pointee)
    case _ => 0
  }

  function FieldsWeight(fields: seq<FieldValue>): nat {
    if fields == [] then 0 else FieldsWeight(fields[..|fields| - 1]) + 1 + Weight(fields[|fields| - 1].value)
  }

  function ElemsWeight(elems: seq<Value>): nat {
    if elems == [] then 0 else ElemsWeight(elems[..|elems| - 1]) + 1 + Weight(elems[|elems| - 1])
  }

  function EntriesWeight(entries: seq<Entry>): nat {
    if entries == [] then 0 else
    var e := entries[|entries| - 1];
    EntriesWeight(entries[..|entries| - 1]) + 1 + Weight(e.key) + Weight(e.value)
  }

  function PieceWeight(p: Piece): nat {
    match p
    case Lit(_) => 0
    case Keyed(_, key, value, _, _) => 1 + Weight(key) + Weight(value)
    case Inner(value, _, _) => 1 + Weight(value)
    case Elem(_, value, _, _) => 1 + Weight(value)
    case Named(_, _, value, _, _) => 1 + Weight(value)
  }

  function PiecesWeight(ps: seq<Piece>): nat {
    if ps == [] then 0 else PieceWeight(ps[0]) + PiecesWeight(ps[1..])
  }

  /** The configured number of spaces per level, whatever it is. */
  const INDENT_SIZE: nat

  function Indent(depth: nat): Text {
    seq(depth * INDENT_SIZE, _ => ' ')
  }

  /** Pointers and transparent wrappers are looked through. */
  function Strip(v: Value): (r: Value)
    ensures !r.VPointer? && Weight(r) <= Weight(v)
  {
    if v.VPointer? then Strip(v.pointee) else v
  }

  predicate AllLits(ps: seq<Piece>) {
    forall i :: 0 <= i < |ps| ==> ps[i].Lit?
  }

  function Break(on: bool, depth: nat): (r: seq<Piece>)
    ensures AllLits(r)
  {
    if on then [Lit("\n"), Lit(Indent(depth))] else []
  }

  function Comma(on: bool): (r: seq<Piece>)
    ensures AllLits(r)
  {
    if on then [Lit(",")] else []
  }

  /** The first `n` fields of `fields`, each on its own line unless `short`. */
  function FieldPieces(prefix: Path, fields: seq<FieldValue>, n: nat, depth: nat, short: bool): seq<Piece>
    requires n <= |fields|
  {
    if n == 0 then [] else
    var f := fields[n - 1];
    FieldPieces(prefix, fields, n - 1, depth, short) + Break(!short, depth + 1)
      + [Named(prefix + [SegField(f.name)], f.name, f.value, depth + 1, short)]
      + Comma(!short || n < |fields|)
  }

  function ElemPieces(prefix: Path, elems: seq<Value>, n: nat, depth: nat, short: bool): seq<Piece>
    requires n <= |elems|
  {
    if n == 0 then [] else
    ElemPieces(prefix, elems, n - 1, depth, short)
      + (if n > 1 then [Lit(", ")] else [])
      + [Elem(prefix + [SegIndex(n - 1)], elems[n - 1], depth + 1, short)]
  }

  /** Before element `n` of a list: a line of its own, or a space between inline elements. */
  function ListLead(n: nat, depth: nat, lines: bool): (r: seq<Piece>)
    ensures AllLits(r)
  {
    if lines then Break(true, depth) else if n > 0 then [Lit(" ")] else []
  }

  function ListPieces(elems: seq<Value>, n: nat, depth: nat, short: bool, simple: bool): seq<Piece>
    requires n <= |elems|
  {
    if n == 0 then [] else
    ListPieces(elems, n - 1, depth, short, simple)
      + ListLead(n - 1, depth + 1, !short && !simple)
      + [Elem([SegIndex(n - 1)], elems[n - 1], depth + 1, short || simple)]
      + Comma((!short && !simple) || n < |elems|)
  }

  function MapPieces(entries: seq<Entry>, n: nat, depth: nat, short: bool): seq<Piece>
    requires n <= |entries|
  {
    if n == 0 then [] else
    var e := entries[n - 1];
    MapPieces(entries, n - 1, depth, short) + Break(!short, depth + 1)
      + [Keyed([SegKey(e.keyText)], e.key, e.value, depth + 1, short)]
      + Comma(!short || n < |entries|)
  }

  function Pieces(v: Value, depth: nat, short: bool): seq<Piece> {
    match v
    case VString(s) => [Lit("\""), Lit(s), Lit("\"")]
    case VScalar(text) => [Lit(text)]
    case VNone => [Lit("None")]
    case VSome(inner) => [Lit("Some("), Inner(inner, depth, short), Lit(")")]
    case VResult(shape, isOk, inner) =>
      [Lit(shape), Lit(if isOk then " Ok(" else " Err("), Inner(inner, depth, short), Lit(")")]
    case VUnit(shape) => [Lit(shape)]
    case VStruct(shape, fields) =>
      [Lit(shape), Lit(" {")] + FieldPieces([], fields, |fields|, depth, short) + Break(!short, depth) + [Lit("}")]
    case VTuple(shape, isTuple, elems) =>
      [Lit(shape), Lit(if isTuple then " " else ""), Lit("(")]
        + ElemPieces([], elems, |elems|, depth, short) + [Lit(")")]
    case VEnumUnit(shape, variant) => [Lit(shape), Lit("::"), Lit(variant)]
    case VEnumStruct(shape, variant, fields) =>
      [Lit(shape), Lit("::"), Lit(variant), Lit(" {")]
        + FieldPieces([SegVariant(variant)], fields, |fields|, depth, short) + Break(!short, depth) + [Lit("}")]
    case VEnumTuple(shape, variant, elems) =>
      [Lit(shape), Lit("::"), Lit(variant), Lit("(")]
        + ElemPieces([SegVariant(variant)], elems, |elems|, depth, short) + [Lit(")")]
    case VEnumUnknown(shape) => [Lit(shape), Lit(" { /* cannot determine variant */ }")]
    case VList(simple, elems) =>
      [Lit("[")] + ListPieces(elems, |elems|, depth, short, simple) + Break(!short && !simple, depth) + [Lit("]")]
    case VMap(entries) =>
      [Lit("{")] + MapPieces(entries, |entries|, depth, short) + Break(!short && entries != [], depth) + [Lit("}")]
    case VProxied(proxy) => [Inner(proxy, depth, short)]
    case VOther(shape) => [Lit(shape), Lit(" { ... }")]
    case VPointer(pointee) => [Inner(pointee, depth, short)]
  }

  lemma {:induction false} WeightAppend(a: seq<Piece>, b: seq<Piece>)
    ensures PiecesWeight(a + b) == PiecesWeight(a) + PiecesWeight(b)
    decreases |a|
  {
    if a == [] {
      assert a + b == b;
    } else {
      assert (a + b)[0] == a[0] && (a + b)[1..] == a[1..] + b;
      WeightAppend(a[1..], b);
    }
  }

  lemma {:induction false} LitsWeight(ps: seq<Piece>)
    requires AllLits(ps)
    ensures PiecesWeight(ps) == 0
  {
    if ps != [] { LitsWeight(ps[1..]); }
  }

  lemma OneWeight(p: Piece)
    ensures PiecesWeight([p]) == PieceWeight(p)
  {
    assert [p][1..] == [];
  }

  /** Fixed text, one place, fixed text. */
  lemma AroundWeight(before: seq<Piece>, a: seq<Piece>, p: Piece, b: seq<Piece>)
    requires AllLits(a)
    requires AllLits(b)
    ensures PiecesWeight(before + a + [p] + b) == PiecesWeight(before) + PieceWeight(p)
  {
    WeightAppend(before + a + [p], b);
    WeightAppend(before + a, [p]);
    WeightAppend(before, a);
    LitsWeight(a);
    LitsWeight(b);
    OneWeight(p);
  }

  lemma {:induction false} FieldPiecesWeight(prefix: Path, fields: seq<FieldValue>, n: nat, depth: nat, short: bool)
    requires n <= |fields|
    ensures PiecesWeight(FieldPieces(prefix, fields, n, depth, short)) == FieldsWeight(fields[..n])
  {
    if n > 0 {
      var f := fields[n - 1];
      FieldPiecesWeight(prefix, fields, n - 1, depth, short);
      assert fields[..n][..n - 1] == fields[..n - 1];
      AroundWeight(FieldPieces(prefix, fields, n - 1, depth, short), Break(!short, depth + 1),
        Named(prefix + [SegField(f.name)], f.name, f.value, depth + 1, short), Comma(!short || n < |fields|));
    }
  }

  lemma {:induction false} ElemPiecesWeight(prefix: Path, elems: seq<Value>, n: nat, depth: nat, short: bool)
    requires n <= |elems|
    ensures PiecesWeight(ElemPieces(prefix, elems, n, depth, short)) == ElemsWeight(elems[..n])
  {
    if n > 0 {
      ElemPiecesWeight(prefix, elems, n - 1, depth, short);
      assert elems[..n][..n - 1] == elems[..n - 1];
      var before := ElemPieces(prefix, elems, n - 1, depth, short);
      var lead := if n > 1 then [Lit(", ")] else [];
      var place := Elem(prefix + [SegIndex(n - 1)], elems[n - 1], depth + 1, short);
      AroundWeight(before, lead, place, []);
      assert before + lead + [place] + [] == before + lead + [place];
    }
  }

  lemma {:induction false} ListPiecesWeight(elems: seq<Value>, n: nat, depth: nat, short: bool, simple: bool)
    requires n <= |elems|
    ensures PiecesWeight(ListPieces(elems, n, depth, short, simple)) == ElemsWeight(elems[..n])
  {
    if n > 0 {
      ListPiecesWeight(elems, n - 1, depth, short, simple);
      assert elems[..n][..n - 1] == elems[..n - 1];
      AroundWeight(ListPieces(elems, n - 1, depth, short, simple),
        ListLead(n - 1, depth + 1, !short && !simple),
        Elem([SegIndex(n - 1)], elems[n - 1], depth + 1, short || simple),
        Comma((!short && !simple) || n < |elems|));
    }
  }

  lemma {:induction false} MapPiecesWeight(entries: seq<Entry>, n: nat, depth: nat, short: bool)
    requires n <= |entries|
    ensures PiecesWeight(MapPieces(entries, n, depth, short)) == EntriesWeight(entries[..n])
  {
    if n > 0 {
      var e := entries[n - 1];
      MapPiecesWeight(entries, n - 1, depth, short);
      assert entries[..n][..n - 1] == entries[..n - 1];
      AroundWeight(MapPieces(entries, n - 1, depth, short), Break(!short, depth + 1),
        Keyed([SegKey(e.keyText)], e.key, e.value, depth + 1, short), Comma(!short || n < |entries|));
    }
  }

  /** Fixed text around the places of a composite value. */
  lemma WrapWeight(a: seq<Piece>, middle: seq<Piece>, b: seq<Piece>, c: seq<Piece>)
    requires AllLits(a)
    requires AllLits(b)
    requires AllLits(c)
    ensures PiecesWeight(a + middle + b + c) == PiecesWeight(middle)
    ensures PiecesWeight(a + middle + c) == PiecesWeight(middle)
  {
    WeightAppend(a + middle + b, c);
    WeightAppend(a + middle, c);
    WeightAppend(a + middle, b);
    WeightAppend(a, middle);
    LitsWeight(a);
    LitsWeight(b);
    LitsWeight(c);
  }

  /** The places of a layout hold smaller values. */
  lemma PiecesSmaller(v: Value, depth: nat, short: bool)
    requires !v.VPointer?
    ensures PiecesWeight(Pieces(v, depth, short)) <= Weight(v)
  {
    hide FieldPieces, ElemPieces, ListPieces, MapPieces, FieldsWeight, ElemsWeight, EntriesWeight, PiecesWeight, Break;
    match v {
      case VStruct(shape, fields) =>
        FieldPiecesWeight([], fields, |fields|, depth, short);
        assert fields[..|fields|] == fields;
        WrapWeight([Lit(shape), Lit(" {")], FieldPieces([], fields, |fields|, depth, short),
          Break(!short, depth), [Lit("}")]);
      case VTuple(shape, isTuple, elems) =>
        ElemPiecesWeight([], elems, |elems|, depth, short);
        assert elems[..|elems|] == elems;
        WrapWeight([Lit(shape), Lit(if isTuple then " " else ""), Lit("(")],
          ElemPieces([], elems, |elems|, depth, short), [], [Lit(")")]);
      case VEnumStruct(shape, variant, fields) =>
        FieldPiecesWeight([SegVariant(variant)], fields, |fields|, depth, short);
        assert fields[..|fields|] == fields;
        WrapWeight([Lit(shape), Lit("::"), Lit(variant), Lit(" {")],
          FieldPieces([SegVariant(variant)], fields, |fields|, depth, short), Break(!short, depth), [Lit("}")]);
      case VEnumTuple(shape, variant, elems) =>
        ElemPiecesWeight([SegVariant(variant)], elems, |elems|, depth, short);
        assert elems[..|elems|] == elems;
        WrapWeight([Lit(shape), Lit("::"), Lit(variant), Lit("(")],
          ElemPieces([SegVariant(variant)], elems, |elems|, depth, short), [], [Lit(")")]);
      case VList(simple, elems) =>
        ListPiecesWeight(elems, |elems|, depth, short, simple);
        assert elems[..|elems|] == elems;
        WrapWeight([Lit("[")], ListPieces(elems, |elems|, depth, short, simple), Break(!short && !simple, depth), [Lit("]")]);
      case VMap(entries) =>
        MapPiecesWeight(entries, |entries|, depth, short);
        assert entries[..|entries|] == entries;
        WrapWeight([Lit("{")], MapPieces(entries, |entries|, depth, short), Break(!short && entries != [], depth), [Lit("}")]);
      case _ => SmallPiecesSmaller(v, depth, short);
    }
  }

  lemma SmallPiecesSmaller(v: Value, depth: nat, short: bool)
    requires !v.VStruct? && !v.VTuple? && !v.VEnumStruct? && !v.VEnumTuple? && !v.VList? && !v.VMap? && !v.VPointer?
    ensures PiecesWeight(Pieces(v, depth, short)) <= Weight(v)
  {
    hide PiecesWeight;
    LitsWeight([]);
    match v {
      case VSome(inner) =>
        AroundWeight([], [Lit("Some(")], Inner(inner, depth, short), [Lit(")")]);
        assert [] + [Lit("Some(")] + [Inner(inner, depth, short)] + [Lit(")")] == Pieces(v, depth, short);
      case VResult(shape, isOk, inner) =>
        var lead := [Lit(shape), Lit(if isOk then " Ok(" else " Err(")];
        AroundWeight([], lead, Inner(inner, depth, short), [Lit(")")]);
        assert [] + lead + [Inner(inner, depth, short)] + [Lit(")")] == Pieces(v, depth, short);
      case VProxied(proxy) => OneWeight(Inner(proxy, depth, short));
      case _ => LitsWeight(Pieces(v, depth, short));
    }
  }

  // ---------------------------------------------------------------- the pure rendering

  function Render(v: Value, depth: nat, short: bool): Text
    decreases Weight(v), 1, 0
  {
    PiecesSmaller(Strip(v), depth, short);
    RenderPieces(Pieces(Strip(v), depth, short))
  }

  function RenderPieces(ps: seq<Piece>): Text
    decreases PiecesWeight(ps), 0, |ps|
  {
    if ps == [] then "" else RenderPiece(ps[0]) + RenderPieces(ps[1..])
  }

  function RenderPiece(p: Piece): Text
    decreases PieceWeight(p), 0, 0
  {
    match p
    case Lit(text) => text
    case Inner(value, depth, short) => Render(value, depth, short)
    case Elem(_, value, depth, short) => Render(value, depth, short)
    case Named(_, name, value, depth, short) => name + ": " + Render(value, depth, short)
    case Keyed(_, key, value, depth, short) => Render(key, depth, true) + ": " + Render(value, depth, short)
  }

  // ---------------------------------------------------------------- what printing does

  datatype Output = Output(text: Text, spans: map<Path, FieldSpan>)

  function Write(out: Output, text: Text): Output {
    out.(text := out.text + text)
  }

  function Record(out: Output, path: Path, key: Span, value: Span): Output {
    out.(spans := out.spans[path := FieldSpan(key, value)])
  }

  /** From byte `start` to the end of the text. */
  function Since(out: Output, start: nat): Span {
    Span(start, |out.text|)
  }

  function Emit(v: Value, path: Path, depth: nat, short: bool, out: Output): Output
    decreases Weight(v), 1, 0
  {
    PiecesSmaller(Strip(v), depth, short);
    var out1 := EmitPieces(Pieces(Strip(v), depth, short), path, out);
    Record(out1, path, Since(out1, |out.text|), Since(out1, |out.text|))
  }

  function EmitPieces(ps: seq<Piece>, path: Path, out: Output): Output
    decreases PiecesWeight(ps), 0, |ps|
  {
    if ps == [] then out else EmitPieces(ps[1..], path, EmitPiece(ps[0], path, out))
  }

  function EmitPiece(p: Piece, path: Path, out: Output): Output
    decreases PieceWeight(p), 0, 0
  {
    match p
    case Lit(text) => Write(out, text)
    case Inner(value, depth, short) => Emit(value, path, depth, short, out)
    case Elem(suffix, value, depth, short) =>
      var out1 := Emit(value, path + suffix, depth, short, out);
      Record(out1, path + suffix, Since(out1, |out.text|), Since(out1, |out.text|))
    case Named(suffix, name, value, depth, short) =>
      var out1 := Write(out, name);
      var out2 := Write(out1, ": ");
      var out3 := Emit(value, path + suffix, depth, short, out2);
      Record(out3, path + suffix, Since(out1, |out.text|), Since(out3, |out2.text|))
    case Keyed(suffix, key, value, depth, short) =>
      var out1 := Emit(key, [], depth, true, out);
      var out2 := Write(out1, ": ");
      var out3 := Emit(value, path + suffix, depth, short, out2);
      Record(out3, path + suffix, Since(out1, |out.text|), Since(out3, |out2.text|))
  }

  lemma {:induction false} EmitAppend(a: seq<Piece>, b: seq<Piece>, path: Path, out: Output)
    ensures EmitPieces(a + b, path, out) == EmitPieces(b, path, EmitPieces(a, path, out))
    decreases |a|
  {
    if a == [] {
      assert a + b == b;
    } else {
      assert (a + b)[0] == a[0] && (a + b)[1..] == a[1..] + b;
      EmitAppend(a[1..], b, path, EmitPiece(a[0], path, out));
    }
  }

  // ---------------------------------------------------------------- the text is the rendering

  lemma {:induction false} EmitText(v: Value, path: Path, depth: nat, short: bool, out: Output)
    ensures Emit(v, path, depth, short, out).text == out.text + Render(v, depth, short)
    decreases Weight(v), 1, 0
  {
    hide Pieces;
    PiecesSmaller(Strip(v), depth, short);
    EmitPiecesText(Pieces(Strip(v), depth, short), path, out);
  }

  lemma {:induction false} EmitPiecesText(ps: seq<Piece>, path: Path, out: Output)
    ensures EmitPieces(ps, path, out).text == out.text + RenderPieces(ps)
    decreases PiecesWeight(ps), 0, |ps|
  {
    hide EmitPiece, RenderPiece;
    if ps != [] {
      EmitPieceText(ps[0], path, out);
      EmitPiecesText(ps[1..], path, EmitPiece(ps[0], path, out));
    }
  }

  lemma {:induction false} EmitPieceText(p: Piece, path: Path, out: Output)
    ensures EmitPiece(p, path, out).text == out.text + RenderPiece(p)
    decreases PieceWeight(p), 0, 0
  {
    hide Emit, Render;
    match p {
      case Lit(_) =>
      case Inner(value, depth, short) => EmitText(value, path, depth, short, out);
      case Elem(suffix, value, depth, short) => EmitText(value, path + suffix, depth, short, out);
      case Named(suffix, name, value, depth, short) =>
        EmitText(value, path + suffix, depth, short, Write(Write(out, name), ": "));
      case Keyed(suffix, key, value, depth, short) =>
        EmitText(key, [], depth, true, out);
        EmitText(value, path + suffix, depth, short, Write(Emit(key, [], depth, true, out), ": "));
    }
  }

  // ---------------------------------------------------------------- where each node is

  /** A node found in a rendering: its key text and its value, and where each starts. */
  datatype Found = Found(keyAt: nat, keyText: Text, at: nat, text: Text)

  function Shift(n: nat, f: Option<Found>): Option<Found> {
    match f
    case Some(found) => Some(found.(keyAt := found.keyAt + n, at := found.at + n))
    case None => None
  }

  /** The outermost node of `v` at path `p`, by structure alone. */
  function Locate(v: Value, depth: nat, short: bool, p: Path): Option<Found>
    decreases Weight(v), 1, 0
  {
    PiecesSmaller(Strip(v), depth, short);
    if p == [] then Some(Found(0, Render(v, depth, short), 0, Render(v, depth, short)))
    else LocateIn(Pieces(Strip(v), depth, short), p)
  }

  function LocateIn(ps: seq<Piece>, p: Path): Option<Found>
    requires p != []
    decreases PiecesWeight(ps), 0, |ps|
  {
    if ps == [] then None
    else if LocatePiece(ps[0], p).Some? then LocatePiece(ps[0], p)
    else Shift(|RenderPiece(ps[0])|, LocateIn(ps[1..], p))
  }

  function LocatePiece(piece: Piece, p: Path): Option<Found>
    requires p != []
    decreases PieceWeight(piece), 0, 0
  {
    match piece
    case Lit(_) => None
    case Inner(value, depth, short) => Locate(value, depth, short, p)
    case Elem(suffix, value, depth, short) =>
      if suffix <= p then Locate(value, depth, short, p[|suffix|..]) else None
    case Named(suffix, name, value, depth, short) => LocateTitled(suffix, name, value, depth, short, p)
    case Keyed(suffix, key, value, depth, short) => LocateTitled(suffix, Render(key, depth, true), value, depth, short, p)
  }

  /** Below a title and `": "`; the node at the suffix itself takes the title as its key. */
  function LocateTitled(suffix: Path, title: Text, value: Value, depth: nat, short: bool, p: Path): Option<Found>
    decreases Weight(value), 2, 0
  {
    if !(suffix <= p) then None
    else if suffix == p then Some(Found(0, title, |title| + 2, Render(value, depth, short)))
    else Shift(|title| + 2, Locate(value, depth, short, p[|suffix|..]))
  }

  function Suffix(p: Piece): Option<Path> {
    match p
    case Lit(_) => None
    case Inner(_, _, _) => Some([])
    case Elem(suffix, _, _, _) => Some(suffix)
    case Named(suffix, _, _, _, _) => Some(suffix)
    case Keyed(suffix, _, _, _, _) => Some(suffix)
  }

  /** No path lies below both pieces. */
  predicate Apart(a: Piece, b: Piece) {
    Suffix(a).Some? && Suffix(b).Some? ==>
      !(Suffix(a).value <= Suffix(b).value) && !(Suffix(b).value <= Suffix(a).value)
  }

  predicate AllApart(ps: seq<Piece>) {
    forall i, j :: 0 <= i < j < |ps| ==> Apart(ps[i], ps[j])
  }

  // ---------------------------------------------------------------- well-formed values

  predicate IsScalar(v: Value) {
    Strip(v).VString? || Strip(v).VScalar?
  }

  /** Field names and key texts tell siblings apart, and map keys are scalars. */
  predicate WellFormed(v: Value)
    decreases v
  {
    match v
    case VSome(inner) => WellFormed(inner)
    case VResult(_, _, inner) => WellFormed(inner)
    case VStruct(_, fields) => FieldsWellFormed(fields)
    case VEnumStruct(_, _, fields) => FieldsWellFormed(fields)
    case VTuple(_, _, elems) => ElemsWellFormed(elems)
    case VEnumTuple(_, _, elems) => ElemsWellFormed(elems)
    case VList(_, elems) => ElemsWellFormed(elems)
    case VMap(entries) =>
      && (forall i, j :: 0 <= i < j < |entries| ==> entries[i].keyText != entries[j].keyText)
      && (forall i :: 0 <= i < |entries| ==> IsScalar(entries[i].key) && WellFormed(entries[i].value))
    case VProxied(proxy) => WellFormed(proxy)
    case VPointer(pointee) => WellFormed(pointee)
    case _ => true
  }

  predicate FieldsWellFormed(fields: seq<FieldValue>) {
    && (forall i, j :: 0 <= i < j < |fields| ==> fields[i].name != fields[j].name)
    && (forall i :: 0 <= i < |fields| ==> WellFormed(fields[i].value))
  }

  predicate ElemsWellFormed(elems: seq<Value>) {
    forall i :: 0 <= i < |elems| ==> WellFormed(elems[i])
  }

  predicate GoodPiece(p: Piece) {
    match p
    case Lit(_) => true
    case Inner(value, _, _) => WellFormed(value)
    case Elem(_, value, _, _) => WellFormed(value)
    case Named(_, _, value, _, _) => WellFormed(value)
    case Keyed(_, key, value, _, _) => IsScalar(key) && WellFormed(value)
  }

  predicate GoodPieces(ps: seq<Piece>) {
    AllApart(ps) && forall i :: 0 <= i < |ps| ==> GoodPiece(ps[i])
  }

  lemma GoodAround(a: seq<Piece>, ps: seq<Piece>, b: seq<Piece>)
    requires GoodPieces(ps) && AllLits(a) && AllLits(b)
    ensures GoodPieces(a + ps + b)
  {
    hide GoodPiece;
    var all := a + ps + b;
    forall i | 0 <= i < |all| ensures GoodPiece(all[i]) {
      if all[i].Lit? { LitIsGood(all[i]); } else { assert all[i] == ps[i - |a|]; }
    }
    forall i, j | 0 <= i < j < |all| ensures Apart(all[i], all[j]) {
      if !all[i].Lit? && !all[j].Lit? { assert all[i] == ps[i - |a|] && all[j] == ps[j - |a|]; }
    }
  }

  lemma LitIsGood(p: Piece)
    requires p.Lit?
    ensures GoodPiece(p)
  {
  }

  /** One more place, apart from those before it, with fixed text around it. */
  lemma GoodNext(before: seq<Piece>, a: seq<Piece>, p: Piece, b: seq<Piece>)
    requires GoodPieces(before) && AllLits(a) && AllLits(b) && GoodPiece(p)
    requires forall i :: 0 <= i < |before| ==> Apart(before[i], p)
    ensures GoodPieces(before + a + [p] + b)
  {
    hide GoodPiece;
    var all := before + a + [p] + b;
    forall i | 0 <= i < |all| ensures GoodPiece(all[i]) {
      if all[i].Lit? { LitIsGood(all[i]); } else if i < |before| { assert all[i] == before[i]; }
    }
    forall i, j | 0 <= i < j < |all| ensures Apart(all[i], all[j]) {
      if !all[i].Lit? && !all[j].Lit? {
        assert i < |before| && all[i] == before[i];
        assert j < |before| ==> all[j] == before[j];
      }
    }
  }

  /** Every place in the pieces has a suffix `prefix + [segment]` with the segment in `used`. */
  ghost predicate SuffixesIn(ps: seq<Piece>, prefix: Path, used: set<Segment>) {
    forall i :: 0 <= i < |ps| && !ps[i].Lit? ==>
      exists s :: s in used && Suffix(ps[i]) == Some(prefix + [s])
  }

  lemma ApartBySegment(ps: seq<Piece>, prefix: Path, used: set<Segment>, p: Piece, s: Segment)
    requires SuffixesIn(ps, prefix, used) && Suffix(p) == Some(prefix + [s]) && s !in used
    ensures forall i :: 0 <= i < |ps| ==> Apart(ps[i], p)
  {
    forall i | 0 <= i < |ps| ensures Apart(ps[i], p) {
      if !ps[i].Lit? {
        var t :| t in used && Suffix(ps[i]) == Some(prefix + [t]);
        assert (prefix + [t])[|prefix|] == t && (prefix + [s])[|prefix|] == s;
      }
    }
  }

  lemma {:induction false} FieldPiecesGood(prefix: Path, fields: seq<FieldValue>, n: nat, depth: nat, short: bool)
    requires n <= |fields| && FieldsWellFormed(fields)
    ensures GoodPieces(FieldPieces(prefix, fields, n, depth, short))
    ensures SuffixesIn(FieldPieces(prefix, fields, n, depth, short), prefix, set i | 0 <= i < n :: SegField(fields[i].name))
  {
    hide WellFormed, Break, Comma, ListLead, GoodPieces;
    EmptyGood();
    if n > 0 {
      var f := fields[n - 1];
      var before := FieldPieces(prefix, fields, n - 1, depth, short);
      var used := set i | 0 <= i < n - 1 :: SegField(fields[i].name);
      var place := Named(prefix + [SegField(f.name)], f.name, f.value, depth + 1, short);
      FieldPiecesGood(prefix, fields, n - 1, depth, short);
      ApartBySegment(before, prefix, used, place, SegField(f.name));
      GoodNext(before, Break(!short, depth + 1), place, Comma(!short || n < |fields|));
    }
  }

  lemma {:induction false} ElemPiecesGood(prefix: Path, elems: seq<Value>, n: nat, depth: nat, short: bool)
    requires n <= |elems| && ElemsWellFormed(elems)
    ensures GoodPieces(ElemPieces(prefix, elems, n, depth, short))
    ensures SuffixesIn(ElemPieces(prefix, elems, n, depth, short), prefix, set i | 0 <= i < n :: SegIndex(i))
  {
    hide WellFormed, Break, Comma, ListLead, GoodPieces;
    EmptyGood();
    if n > 0 {
      var before := ElemPieces(prefix, elems, n - 1, depth, short);
      var used := set i | 0 <= i < n - 1 :: SegIndex(i);
      var lead := if n > 1 then [Lit(", ")] else [];
      var place := Elem(prefix + [SegIndex(n - 1)], elems[n - 1], depth + 1, short);
      ElemPiecesGood(prefix, elems, n - 1, depth, short);
      ApartBySegment(before, prefix, used, place, SegIndex(n - 1));
      GoodNext(before, lead, place, []);
      assert before + lead + [place] + [] == before + lead + [place];
    }
  }

  lemma {:induction false} ListPiecesGood(elems: seq<Value>, n: nat, depth: nat, short: bool, simple: bool)
    requires n <= |elems| && ElemsWellFormed(elems)
    ensures GoodPieces(ListPieces(elems, n, depth, short, simple))
    ensures SuffixesIn(ListPieces(elems, n, depth, short, simple), [], set i | 0 <= i < n :: SegIndex(i))
  {
    hide WellFormed, Break, Comma, ListLead, GoodPieces;
    EmptyGood();
    if n > 0 {
      var before := ListPieces(elems, n - 1, depth, short, simple);
      var used := set i | 0 <= i < n - 1 :: SegIndex(i);
      var place := Elem([SegIndex(n - 1)], elems[n - 1], depth + 1, short || simple);
      ListPiecesGood(elems, n - 1, depth, short, simple);
      assert [] + [SegIndex(n - 1)] == [SegIndex(n - 1)];
      ApartBySegment(before, [], used, place, SegIndex(n - 1));
      GoodNext(before, ListLead(n - 1, depth + 1, !short && !simple),
        place, Comma((!short && !simple) || n < |elems|));
    }
  }

  lemma {:induction false} MapPiecesGood(entries: seq<Entry>, n: nat, depth: nat, short: bool)
    requires n <= |entries| && WellFormed(VMap(entries))
    ensures GoodPieces(MapPieces(entries, n, depth, short))
    ensures SuffixesIn(MapPieces(entries, n, depth, short), [], set i | 0 <= i < n :: SegKey(entries[i].keyText))
  {
    hide Break, Comma, GoodPieces;
    EmptyGood();
    if n > 0 {
      var e := entries[n - 1];
      var before := MapPieces(entries, n - 1, depth, short);
      var used := set i | 0 <= i < n - 1 :: SegKey(entries[i].keyText);
      var place := Keyed([SegKey(e.keyText)], e.key, e.value, depth + 1, short);
      MapPiecesGood(entries, n - 1, depth, short);
      assert [] + [SegKey(e.keyText)] == [SegKey(e.keyText)];
      ApartBySegment(before, [], used, place, SegKey(e.keyText));
      GoodNext(before, Break(!short, depth + 1), place, Comma(!short || n < |entries|));
    }
  }

  lemma StripWellFormed(v: Value)
    requires WellFormed(v)
    ensures WellFormed(Strip(v))
  {
  }

  lemma WrapGood(a: seq<Piece>, ps: seq<Piece>, b: seq<Piece>, c: seq<Piece>)
    requires GoodPieces(ps) && AllLits(a) && AllLits(b) && AllLits(c)
    ensures GoodPieces(a + ps + b + c) && GoodPieces(a + ps + c)
  {
    hide GoodPieces;
    GoodAround(a, ps, b + c);
    assert a + ps + (b + c) == a + ps + b + c;
    GoodAround(a, ps, c);
  }

  lemma PiecesGood(v: Value, depth: nat, short: bool)
    requires WellFormed(v)
    ensures GoodPieces(Pieces(v, depth, short))
  {
    hide FieldPieces, ElemPieces, ListPieces, MapPieces, GoodPieces, Break;
    match v {
      case VStruct(shape, fields) =>
        FieldPiecesGood([], fields, |fields|, depth, short);
        WrapGood([Lit(shape), Lit(" {")], FieldPieces([], fields, |fields|, depth, short), Break(!short, depth), [Lit("}")]);
      case VTuple(shape, isTuple, elems) =>
        ElemPiecesGood([], elems, |elems|, depth, short);
        WrapGood([Lit(shape), Lit(if isTuple then " " else ""), Lit("(")],
          ElemPieces([], elems, |elems|, depth, short), [], [Lit(")")]);
      case VEnumStruct(shape, variant, fields) =>
        FieldPiecesGood([SegVariant(variant)], fields, |fields|, depth, short);
        WrapGood([Lit(shape), Lit("::"), Lit(variant), Lit(" {")],
          FieldPieces([SegVariant(variant)], fields, |fields|, depth, short), Break(!short, depth), [Lit("}")]);
      case VEnumTuple(shape, variant, elems) =>
        ElemPiecesGood([SegVariant(variant)], elems, |elems|, depth, short);
        WrapGood([Lit(shape), Lit("::"), Lit(variant), Lit("(")],
          ElemPieces([SegVariant(variant)], elems, |elems|, depth, short), [], [Lit(")")]);
      case VList(simple, elems) =>
        ListPiecesGood(elems, |elems|, depth, short, simple);
        WrapGood([Lit("[")], ListPieces(elems, |elems|, depth, short, simple), Break(!short && !simple, depth), [Lit("]")]);
      case VMap(entries) =>
        MapPiecesGood(entries, |entries|, depth, short);
        WrapGood([Lit("{")], MapPieces(entries, |entries|, depth, short), Break(!short && entries != [], depth), [Lit("}")]);
      case _ => SmallPiecesGood(v, depth, short);
    }
  }

  lemma EmptyGood()
    ensures GoodPieces([])
  {
  }

  lemma SmallPiecesGood(v: Value, depth: nat, short: bool)
    requires WellFormed(v)
    requires !v.VStruct? && !v.VTuple? && !v.VEnumStruct? && !v.VEnumTuple? && !v.VList? && !v.VMap?
    ensures GoodPieces(Pieces(v, depth, short))
  {
  }

  // ---------------------------------------------------------------- what the span map holds

  function SpansOf(base: nat, f: Found): FieldSpan {
    FieldSpan(Span(base + f.keyAt, base + f.keyAt + |f.keyText|), Span(base + f.at, base + f.at + |f.text|))
  }

  /** The entry at `key`: the node's spans if there is a node, and as before if there is none. */
  ghost predicate Settled(before: map<Path, FieldSpan>, after: map<Path, FieldSpan>, base: nat, key: Path, f: Option<Found>) {
    match f
    case Some(found) => key in after && after[key] == SpansOf(base, found)
    case None => SameAt(before, after, key)
  }

  ghost predicate SameAt(before: map<Path, FieldSpan>, after: map<Path, FieldSpan>, key: Path) {
    (key in after <==> key in before) && (key in before ==> after[key] == before[key])
  }

  /** A scalar writes its text and leaves one entry, at its own path. */
  lemma EmitScalar(v: Value, path: Path, depth: nat, short: bool, out: Output, key: Path)
    requires IsScalar(v) && key != path
    ensures SameAt(out.spans, Emit(v, path, depth, short, out).spans, key)
  {
    PiecesSmaller(Strip(v), depth, short);
    EmitLits(Pieces(Strip(v), depth, short), path, out);
  }

  lemma {:induction false} EmitLits(ps: seq<Piece>, path: Path, out: Output)
    requires AllLits(ps)
    ensures EmitPieces(ps, path, out).spans == out.spans
    decreases |ps|
  {
    if ps != [] { EmitLits(ps[1..], path, EmitPiece(ps[0], path, out)); }
  }

  /** Despite all the overwriting, each node ends up with its own spans. */
  lemma {:induction false} EmitSettles(v: Value, path: Path, depth: nat, short: bool, out: Output, p: Path)
    requires WellFormed(v)
    ensures Settled(out.spans, Emit(v, path, depth, short, out).spans, |out.text|, path + p, Locate(v, depth, short, p))
    decreases Weight(v), 1, 0
  {
    hide Pieces, EmitPieces, LocateIn, GoodPieces;
    PiecesSmaller(Strip(v), depth, short);
    StripWellFormed(v);
    PiecesGood(Strip(v), depth, short);
    EmitText(v, path, depth, short, out);
    if p == [] {
      assert path + p == path;
    } else {
      EmitPiecesSettles(Pieces(Strip(v), depth, short), path, out, p);
      assert path + p != path;
    }
  }

  lemma {:induction false} EmitPiecesSettles(ps: seq<Piece>, path: Path, out: Output, p: Path)
    requires GoodPieces(ps) && p != []
    ensures Settled(out.spans, EmitPieces(ps, path, out).spans, |out.text|, path + p, LocateIn(ps, p))
    decreases PiecesWeight(ps), 0, |ps|
  {
    hide EmitPiece, LocatePiece, GoodPiece, RenderPiece;
    if ps != [] {
      var out1 := EmitPiece(ps[0], path, out);
      EmitPieceSettles(ps[0], path, out, p);
      EmitPieceText(ps[0], path, out);
      EmitPiecesSettles(ps[1..], path, out1, p);
      if LocatePiece(ps[0], p).Some? {
        FoundBelowSuffix(ps[0], p);
        forall i | 0 <= i < |ps[1..]| ensures Elsewhere(ps[1..][i], p) {
          assert Apart(ps[0], ps[i + 1]);
          ApartElsewhere(ps[0], ps[i + 1], p);
        }
        NotFoundElsewhere(ps[1..], p);
      }
    }
  }

  lemma PrefixesCompare(s: Path, t: Path, p: Path)
    ensures s <= p && t <= p ==> s <= t || t <= s
  {
    if s <= p && t <= p {
      assert if |s| <= |t| then s == t[..|s|] else t == s[..|t|];
    }
  }

  lemma PrefixCancels(path: Path, s: Path, p: Path)
    ensures path + s <= path + p <==> s <= p
  {
    assert (path + p)[|path|..] == p && (path + s)[|path|..] == s;
    if path + s <= path + p {
      assert s == (path + p)[..|path + s|][|path|..] == p[..|s|];
    }
  }

  lemma PrefixShortens(path: Path, s: Path, key: Path)
    ensures path + s <= key ==> path <= key
  {
    if path + s <= key {
      assert path == key[..|path + s|][..|path|] == key[..|path|];
    }
  }

  /** `p` does not lie below the piece. */
  predicate Elsewhere(piece: Piece, p: Path) {
    Suffix(piece).Some? ==> !(Suffix(piece).value <= p)
  }

  lemma FoundBelowSuffix(piece: Piece, p: Path)
    requires p != [] && LocatePiece(piece, p).Some?
    ensures Suffix(piece).Some? && Suffix(piece).value <= p
  {
  }

  lemma ApartElsewhere(a: Piece, b: Piece, p: Path)
    requires Apart(a, b) && Suffix(a).Some? && Suffix(a).value <= p
    ensures Elsewhere(b, p)
  {
    if Suffix(b).Some? { PrefixesCompare(Suffix(a).value, Suffix(b).value, p); }
  }

  lemma {:induction false} NotFoundElsewhere(ps: seq<Piece>, p: Path)
    requires p != [] && forall i :: 0 <= i < |ps| ==> Elsewhere(ps[i], p)
    ensures LocateIn(ps, p) == None
    decreases |ps|
  {
    if ps != [] {
      assert LocatePiece(ps[0], p) == None by {
        if LocatePiece(ps[0], p).Some? { FoundBelowSuffix(ps[0], p); }
      }
      NotFoundElsewhere(ps[1..], p);
    }
  }

  lemma {:induction false} EmitPieceSettles(piece: Piece, path: Path, out: Output, p: Path)
    requires GoodPiece(piece) && p != []
    ensures Settled(out.spans, EmitPiece(piece, path, out).spans, |out.text|, path + p, LocatePiece(piece, p))
    decreases PieceWeight(piece), 0, 0
  {
    hide Emit, Locate, Render, WellFormed, IsScalar;
    match piece {
      case Lit(_) =>
      case Inner(value, depth, short) => EmitSettles(value, path, depth, short, out, p);
      case Elem(suffix, value, depth, short) => ElemSettles(piece, path, out, p);
      case Named(suffix, name, value, depth, short) =>
        TitledSettles(suffix, name, value, depth, short, path, Write(out, name), |out.text|, p);
      case Keyed(suffix, key, value, depth, short) =>
        EmitText(key, [], depth, true, out);
        EmitScalar(key, [], depth, true, out, path + p);
        TitledSettles(suffix, Render(key, depth, true), value, depth, short, path,
          Emit(key, [], depth, true, out), |out.text|, p);
    }
  }

  lemma {:induction false} ElemSettles(piece: Piece, path: Path, out: Output, p: Path)
    requires piece.Elem? && GoodPiece(piece) && p != []
    ensures Settled(out.spans, EmitPiece(piece, path, out).spans, |out.text|, path + p, LocatePiece(piece, p))
    decreases PieceWeight(piece) - 1, 2, 1
  {
    hide Emit, Locate, Render, WellFormed;
    var suffix, value, depth, short := piece.suffix, piece.value, piece.depth, piece.short;
    EmitText(value, path + suffix, depth, short, out);
    if suffix <= p {
      var rest := p[|suffix|..];
      assert path + suffix + rest == path + p;
      EmitSettles(value, path + suffix, depth, short, out, rest);
      if rest == [] { LocateRoot(value, depth, short); } else { assert path + p != path + suffix; }
    } else {
      EmitElsewhere(value, path, suffix, depth, short, out, p);
      OtherKey(path, suffix, p);
    }
  }

  lemma OtherKey(path: Path, suffix: Path, p: Path)
    requires !(suffix <= p)
    ensures path + p != path + suffix
  {
    PrefixCancels(path, suffix, p);
  }

  lemma LocateRoot(v: Value, depth: nat, short: bool)
    ensures Locate(v, depth, short, []) == Some(Found(0, Render(v, depth, short), 0, Render(v, depth, short)))
  {
  }

  /** A title already written at `base`, then `": "` and the value. */
  lemma {:induction false} TitledSettles(
    suffix: Path, title: Text, value: Value, depth: nat, short: bool, path: Path, titled: Output, base: nat, p: Path)
    requires WellFormed(value) && p != [] && |titled.text| == base + |title|
    ensures var out2 := Write(titled, ": ");
            var out3 := Emit(value, path + suffix, depth, short, out2);
            var done := Record(out3, path + suffix, Since(titled, base), Since(out3, |out2.text|));
            Settled(titled.spans, done.spans, base, path + p, LocateTitled(suffix, title, value, depth, short, p))
    decreases Weight(value), 2, 1
  {
    hide Emit, Locate, Render, WellFormed;
    var out2 := Write(titled, ": ");
    EmitText(value, path + suffix, depth, short, out2);
    if suffix <= p {
      var rest := p[|suffix|..];
      assert path + suffix + rest == path + p;
      EmitSettles(value, path + suffix, depth, short, out2, rest);
      if rest == [] { assert suffix == p; } else { assert path + p != path + suffix; }
    } else {
      EmitElsewhere(value, path, suffix, depth, short, out2, p);
      OtherKey(path, suffix, p);
    }
  }

  /** Printing below `path + suffix` does not touch `path + p` when `p` lies elsewhere. */
  lemma {:induction false} EmitElsewhere(
    v: Value, path: Path, suffix: Path, depth: nat, short: bool, out: Output, p: Path)
    requires WellFormed(v) && p != [] && !(suffix <= p)
    ensures SameAt(out.spans, Emit(v, path + suffix, depth, short, out).spans, path + p)
    decreases Weight(v), 2, 0
  {
    PrefixCancels(path, suffix, p);
    EmitFramed(v, path + suffix, depth, short, out, path + p);
  }

  /** Printing at `path` touches only `path`, what is below it, and the empty path. */
  lemma {:induction false} EmitFramed(v: Value, path: Path, depth: nat, short: bool, out: Output, key: Path)
    requires WellFormed(v) && key != [] && !(path <= key)
    ensures SameAt(out.spans, Emit(v, path, depth, short, out).spans, key)
    decreases Weight(v), 1, 0
  {
    hide Pieces, EmitPieces, GoodPieces;
    PiecesSmaller(Strip(v), depth, short);
    StripWellFormed(v);
    PiecesGood(Strip(v), depth, short);
    EmitPiecesFramed(Pieces(Strip(v), depth, short), path, out, key);
  }

  lemma {:induction false} EmitPiecesFramed(ps: seq<Piece>, path: Path, out: Output, key: Path)
    requires GoodPieces(ps) && key != [] && !(path <= key)
    ensures SameAt(out.spans, EmitPieces(ps, path, out).spans, key)
    decreases PiecesWeight(ps), 0, |ps|
  {
    hide EmitPiece;
    if ps != [] {
      EmitPieceFramed(ps[0], path, out, key);
      EmitPiecesFramed(ps[1..], path, EmitPiece(ps[0], path, out), key);
    }
  }

  lemma {:induction false} EmitPieceFramed(p: Piece, path: Path, out: Output, key: Path)
    requires GoodPiece(p) && key != [] && !(path <= key)
    ensures SameAt(out.spans, EmitPiece(p, path, out).spans, key)
    decreases PieceWeight(p), 0, 0
  {
    hide Emit, WellFormed, IsScalar;
    if Suffix(p).Some? { PrefixShortens(path, Suffix(p).value, key); }
    assert path + [] == path;
    match p {
      case Lit(_) =>
      case Inner(value, depth, short) => EmitFramed(value, path, depth, short, out, key);
      case Elem(suffix, value, depth, short) => EmitFramed(value, path + suffix, depth, short, out, key);
      case Named(suffix, name, value, depth, short) =>
        EmitFramed(value, path + suffix, depth, short, Write(Write(out, name), ": "), key);
      case Keyed(suffix, k, value, depth, short) =>
        EmitScalar(k, [], depth, true, out, key);
        EmitFramed(value, path + suffix, depth, short, Write(Emit(k, [], depth, true, out), ": "), key);
    }
  }

  // ---------------------------------------------------------------- the places are right

  /** Both texts of a found node are where it says they are. */
  ghost predicate Shows(whole: Text, f: Found) {
    && f.keyAt <= f.at && f.at + |f.text| <= |whole| && f.keyAt + |f.keyText| <= |whole|
    && whole[f.keyAt..f.keyAt + |f.keyText|] == f.keyText
    && whole[f.at..f.at + |f.text|] == f.text
  }

  lemma ShowsInside(before: Text, inside: Text, after: Text, f: Found)
    requires Shows(inside, f)
    ensures Shows(before + inside + after, f.(keyAt := f.keyAt + |before|, at := f.at + |before|))
  {
    var whole, n := before + inside + after, |before|;
    assert whole[n..n + |inside|] == inside;
    assert whole[n + f.keyAt..n + f.keyAt + |f.keyText|] == whole[n..n + |inside|][f.keyAt..f.keyAt + |f.keyText|];
    assert whole[n + f.at..n + f.at + |f.text|] == whole[n..n + |inside|][f.at..f.at + |f.text|];
  }

  /** Wherever a node is located, the rendering shows its key and its text. */
  lemma {:induction false} LocateShows(v: Value, depth: nat, short: bool, p: Path)
    ensures var f := Locate(v, depth, short, p);
            f.Some? ==> Shows(Render(v, depth, short), f.value)
    decreases Weight(v), 1, 0
  {
    hide Pieces, LocateIn, RenderPieces;
    PiecesSmaller(Strip(v), depth, short);
    if p != [] {
      LocateInShows(Pieces(Strip(v), depth, short), p);
    }
  }

  lemma {:induction false} LocateInShows(ps: seq<Piece>, p: Path)
    requires p != []
    ensures var f := LocateIn(ps, p);
            f.Some? ==> Shows(RenderPieces(ps), f.value)
    decreases PiecesWeight(ps), 0, |ps|
  {
    hide LocatePiece, RenderPiece, Shows;
    if ps != [] {
      var here, rest := RenderPiece(ps[0]), RenderPieces(ps[1..]);
      LocatePieceShows(ps[0], p);
      LocateInShows(ps[1..], p);
      var f := LocatePiece(ps[0], p);
      assert "" + here + rest == here + rest == here + rest + "";
      if f.Some? {
        ShowsInside("", here, rest, f.value);
      } else if LocateIn(ps[1..], p).Some? {
        ShowsInside(here, rest, "", LocateIn(ps[1..], p).value);
      }
    }
  }

  lemma {:induction false} LocatePieceShows(piece: Piece, p: Path)
    requires p != []
    ensures var f := LocatePiece(piece, p);
            f.Some? ==> Shows(RenderPiece(piece), f.value)
    decreases PieceWeight(piece), 0, 0
  {
    hide Locate, Render, Shows;
    match piece {
      case Lit(_) =>
      case Inner(value, depth, short) => LocateShows(value, depth, short, p);
      case Elem(suffix, value, depth, short) =>
        if suffix <= p { LocateShows(value, depth, short, p[|suffix|..]); }
      case Named(suffix, name, value, depth, short) => TitledShows(suffix, name, value, depth, short, p);
      case Keyed(suffix, key, value, depth, short) =>
        TitledShows(suffix, Render(key, depth, true), value, depth, short, p);
    }
  }

  lemma {:induction false} TitledShows(suffix: Path, title: Text, value: Value, depth: nat, short: bool, p: Path)
    requires p != []
    ensures var f := LocateTitled(suffix, title, value, depth, short, p);
            f.Some? ==> Shows(title + ": " + Render(value, depth, short), f.value)
    decreases Weight(value), 2, 0
  {
    hide Locate, Render;
    var text := Render(value, depth, short);
    if suffix <= p && suffix != p {
      LocateShows(value, depth, short, p[|suffix|..]);
      var f := Locate(value, depth, short, p[|suffix|..]);
      if f.Some? {
        ShowsInside(title + ": ", text, "", f.value);
        assert title + ": " + text + "" == title + ": " + text;
      }
    }
  }

  /** Everything a node writes, its key included, lies inside `outer`'s value. */
  predicate Inside(inner: Found, outer: Found) {
    outer.at <= inner.keyAt && inner.at + |inner.text| <= outer.at + |outer.text|
  }

  /** One node is entirely written before the other's key begins. */
  predicate Before(a: Found, b: Found) {
    a.at + |a.text| <= b.keyAt
  }

  /** Nodes on diverging paths have disjoint spans. */
  lemma {:induction false} LocateDisjoint(v: Value, depth: nat, short: bool, p: Path, q: Path)
    requires !(p <= q) && !(q <= p)
    requires Locate(v, depth, short, p).Some? && Locate(v, depth, short, q).Some?
    ensures var a, b := Locate(v, depth, short, p).value, Locate(v, depth, short, q).value;
            Before(a, b) || Before(b, a)
    decreases Weight(v), 1, 0
  {
    hide Pieces, LocateIn;
    PiecesSmaller(Strip(v), depth, short);
    LocateInDisjoint(Pieces(Strip(v), depth, short), p, q);
  }

  lemma {:induction false} LocateInDisjoint(ps: seq<Piece>, p: Path, q: Path)
    requires p != [] && q != [] && !(p <= q) && !(q <= p)
    requires LocateIn(ps, p).Some? && LocateIn(ps, q).Some?
    ensures var a, b := LocateIn(ps, p).value, LocateIn(ps, q).value;
            Before(a, b) || Before(b, a)
    decreases PiecesWeight(ps), 0, |ps|
  {
    hide LocatePiece, RenderPiece;
    var a, b := LocatePiece(ps[0], p), LocatePiece(ps[0], q);
    LocatePieceShows(ps[0], p);
    LocatePieceShows(ps[0], q);
    if a.Some? && b.Some? {
      LocatePieceDisjoint(ps[0], p, q);
    } else if a.None? && b.None? {
      LocateInDisjoint(ps[1..], p, q);
    }
  }

  lemma {:induction false} LocatePieceDisjoint(piece: Piece, p: Path, q: Path)
    requires p != [] && q != [] && !(p <= q) && !(q <= p)
    requires LocatePiece(piece, p).Some? && LocatePiece(piece, q).Some?
    ensures var a, b := LocatePiece(piece, p).value, LocatePiece(piece, q).value;
            Before(a, b) || Before(b, a)
    decreases PieceWeight(piece), 0, 0
  {
    hide Locate, Render, LocatePiece;
    FoundBelowSuffix(piece, p);
    FoundBelowSuffix(piece, q);
    var n := |Suffix(piece).value|;
    DivergeBelow(Suffix(piece).value, p, q);
    LocatePieceAt(piece, p);
    LocatePieceAt(piece, q);
    LocateDisjoint(piece.value, piece.depth, piece.short, p[n..], q[n..]);
  }

  /** Two diverging paths below one suffix diverge after it. */
  lemma DivergeBelow(s: Path, p: Path, q: Path)
    requires s <= p && s <= q && !(p <= q) && !(q <= p)
    ensures !(p[|s|..] <= q[|s|..]) && !(q[|s|..] <= p[|s|..])
    ensures s != p && s != q
  {
    assert p == s + p[|s|..] && q == s + q[|s|..];
    PrefixCancels(s, p[|s|..], q[|s|..]);
    PrefixCancels(s, q[|s|..], p[|s|..]);
  }

  /** A node below another is written inside its value. */
  lemma {:induction false} LocateNested(v: Value, depth: nat, short: bool, p: Path, q: Path)
    requires WellFormed(v) && q != []
    requires Locate(v, depth, short, p).Some? && Locate(v, depth, short, p + q).Some?
    ensures Inside(Locate(v, depth, short, p + q).value, Locate(v, depth, short, p).value)
    decreases Weight(v), 1, 0
  {
    hide Pieces, LocateIn, GoodPieces;
    PiecesSmaller(Strip(v), depth, short);
    if p == [] {
      LocateShows(v, depth, short, p + q);
    } else {
      StripWellFormed(v);
      PiecesGood(Strip(v), depth, short);
      LocateInNested(Pieces(Strip(v), depth, short), p, q);
    }
  }

  lemma {:induction false} LocateInNested(ps: seq<Piece>, p: Path, q: Path)
    requires GoodPieces(ps) && p != [] && q != []
    requires LocateIn(ps, p).Some? && LocateIn(ps, p + q).Some?
    ensures Inside(LocateIn(ps, p + q).value, LocateIn(ps, p).value)
    decreases PiecesWeight(ps), 0, |ps|
  {
    hide LocatePiece, RenderPiece, GoodPiece;
    if LocatePiece(ps[0], p + q).Some? { FoundHere(ps, p, q); }
    if LocatePiece(ps[0], p).Some? {
      FoundBelowSuffix(ps[0], p);
      NotFoundAfter(ps, p + q);
      LocatePieceNested(ps[0], p, q);
    } else {
      LocateInNested(ps[1..], p, q);
    }
  }

  lemma {:induction false} LocatePieceNested(piece: Piece, p: Path, q: Path)
    requires GoodPiece(piece) && p != [] && q != []
    requires LocatePiece(piece, p).Some? && LocatePiece(piece, p + q).Some?
    ensures Inside(LocatePiece(piece, p + q).value, LocatePiece(piece, p).value)
    decreases PieceWeight(piece), 0, 0
  {
    hide Locate, LocatePiece, Render, WellFormed, IsScalar, GoodPiece;
    FoundBelowSuffix(piece, p);
    PieceValueGood(piece);
    var suffix := Suffix(piece).value;
    var rest := p[|suffix|..];
    assert (p + q)[|suffix|..] == rest + q;
    LocatePieceAt(piece, p);
    LocatePieceAt(piece, p + q);
    if rest == [] {
      assert suffix == p && rest + q == q;
      LocateShows(piece.value, piece.depth, piece.short, q);
    } else {
      LocateNested(piece.value, piece.depth, piece.short, rest, q);
    }
  }

  lemma PieceValueGood(piece: Piece)
    requires GoodPiece(piece) && !piece.Lit?
    ensures WellFormed(piece.value)
  {
  }

  /** The text before the value of a place. */
  function TitleLength(piece: Piece): nat {
    match piece
    case Named(_, name, _, _, _) => |name| + 2
    case Keyed(_, key, _, depth, _) => |Render(key, depth, true)| + 2
    case _ => 0
  }

  /** Below a place, a node is where it is in the place's value, after the title. */
  lemma LocatePieceAt(piece: Piece, p: Path)
    requires !piece.Lit? && p != [] && Suffix(piece).value <= p
    ensures var rest := p[|Suffix(piece).value|..];
            && (rest != [] ==> LocatePiece(piece, p) == Shift(TitleLength(piece), Locate(piece.value, piece.depth, piece.short, rest)))
            && (rest == [] ==>
                  && LocatePiece(piece, p).Some? && LocatePiece(piece, p).value.at == TitleLength(piece)
                  && LocatePiece(piece, p).value.text == Render(piece.value, piece.depth, piece.short))
  {
    hide Locate, Render;
    var suffix := Suffix(piece).value;
    assert p == suffix + p[|suffix|..];
    if p[|suffix|..] == [] { LocateRoot(piece.value, piece.depth, piece.short); }
    var f := Locate(piece.value, piece.depth, piece.short, p[|suffix|..]);
    assert Shift(0, f) == f;
  }

  /** A path found in the first piece was already below that piece. */
  lemma FoundHere(ps: seq<Piece>, p: Path, q: Path)
    requires GoodPieces(ps) && ps != [] && p != []
    requires LocateIn(ps, p).Some? && LocatePiece(ps[0], p + q).Some?
    ensures LocatePiece(ps[0], p).Some?
  {
    FoundBelowSuffix(ps[0], p + q);
    forall i | 0 <= i < |ps[1..]| ensures Elsewhere(ps[1..][i], p) {
      assert Apart(ps[0], ps[i + 1]);
      ApartElsewhere(ps[0], ps[i + 1], p + q);
    }
    NotFoundElsewhere(ps[1..], p);
  }

  /** Only the first piece can hold a path below its suffix. */
  lemma NotFoundAfter(ps: seq<Piece>, p: Path)
    requires GoodPieces(ps) && ps != [] && p != [] && LocateIn(ps, p).Some?
    requires Suffix(ps[0]).Some? && Suffix(ps[0]).value <= p
    ensures LocatePiece(ps[0], p).Some?
  {
    forall i | 0 <= i < |ps[1..]| ensures Elsewhere(ps[1..][i], p) {
      assert Apart(ps[0], ps[i + 1]);
      ApartElsewhere(ps[0], ps[i + 1], p);
    }
    NotFoundElsewhere(ps[1..], p);
  }

  // ---------------------------------------------------------------- document order

  /** A value inside another one, and where its path goes on from there. */
  datatype Kid = Kid(suffix: Path, value: Value)

  function FieldKids(prefix: Path, fields: seq<FieldValue>, n: nat): seq<Kid>
    requires n <= |fields|
  {
    seq(n, i requires 0 <= i < n => Kid(prefix + [SegField(fields[i].name)], fields[i].value))
  }

  function ElemKids(prefix: Path, elems: seq<Value>, n: nat): seq<Kid>
    requires n <= |elems|
  {
    seq(n, i requires 0 <= i < n => Kid(prefix + [SegIndex(i)], elems[i]))
  }

  function EntryKids(entries: seq<Entry>, n: nat): seq<Kid>
    requires n <= |entries|
  {
    seq(n, i requires 0 <= i < n => Kid([SegKey(entries[i].keyText)], entries[i].value))
  }

  /** What a value is made of, in the order of its declaration. */
  function Kids(v: Value): seq<Kid> {
    match v
    case VSome(inner) => [Kid([], inner)]
    case VResult(_, _, inner) => [Kid([], inner)]
    case VStruct(_, fields) => FieldKids([], fields, |fields|)
    case VTuple(_, _, elems) => ElemKids([], elems, |elems|)
    case VEnumStruct(_, variant, fields) => FieldKids([SegVariant(variant)], fields, |fields|)
    case VEnumTuple(_, variant, elems) => ElemKids([SegVariant(variant)], elems, |elems|)
    case VList(_, elems) => ElemKids([], elems, |elems|)
    case VMap(entries) => EntryKids(entries, |entries|)
    case VProxied(proxy) => [Kid([], proxy)]
    case VPointer(pointee) => [Kid([], pointee)]
    case _ => []
  }

  function KidsWeight(kids: seq<Kid>): nat {
    if kids == [] then 0 else 1 + Weight(kids[0].value) + KidsWeight(kids[1..])
  }

  /** `p` comes before `q` in `v`, judged by declaration order alone. */
  ghost predicate Precedes(v: Value, p: Path, q: Path)
    decreases Weight(v), 1, 0
  {
    KidsSmaller(v);
    PrecedesIn(Kids(v), p, q)
  }

  /** The first part that has one of them decides, from inside if it has both. */
  ghost predicate PrecedesIn(kids: seq<Kid>, p: Path, q: Path)
    decreases KidsWeight(kids), 0, |kids|
  {
    if kids == [] then false
    else if kids[0].suffix <= p && kids[0].suffix <= q then
      Precedes(kids[0].value, p[|kids[0].suffix|..], q[|kids[0].suffix|..])
    else if kids[0].suffix <= p then true
    else if kids[0].suffix <= q then false
    else PrecedesIn(kids[1..], p, q)
  }

  /** The places of a layout, as parts. */
  function KidsOf(ps: seq<Piece>): seq<Kid> {
    if ps == [] then []
    else (if ps[0].Lit? then [] else [Kid(Suffix(ps[0]).value, ps[0].value)]) + KidsOf(ps[1..])
  }

  lemma {:induction false} KidsAppend(a: seq<Piece>, b: seq<Piece>)
    ensures KidsOf(a + b) == KidsOf(a) + KidsOf(b)
    decreases |a|
  {
    if a == [] {
      assert a + b == b;
    } else {
      assert (a + b)[0] == a[0] && (a + b)[1..] == a[1..] + b;
      KidsAppend(a[1..], b);
    }
  }

  lemma {:induction false} LitKids(ps: seq<Piece>)
    requires AllLits(ps)
    ensures KidsOf(ps) == []
  {
    if ps != [] { LitKids(ps[1..]); }
  }

  lemma KidsAround(before: seq<Piece>, a: seq<Piece>, p: Piece, b: seq<Piece>)
    requires !p.Lit?
    requires AllLits(a)
    requires AllLits(b)
    ensures KidsOf(before + a + [p] + b) == KidsOf(before) + [Kid(Suffix(p).value, p.value)]
  {
    KidsAppend(before + a + [p], b);
    KidsAppend(before + a, [p]);
    KidsAppend(before, a);
    LitKids(a);
    LitKids(b);
    assert [p][1..] == [];
  }

  lemma KidsWrapped(a: seq<Piece>, middle: seq<Piece>, b: seq<Piece>, c: seq<Piece>)
    requires AllLits(a)
    requires AllLits(b)
    requires AllLits(c)
    ensures KidsOf(a + middle + b + c) == KidsOf(middle)
    ensures KidsOf(a + middle + c) == KidsOf(middle)
  {
    KidsAppend(a + middle + b, c);
    KidsAppend(a + middle, c);
    KidsAppend(a + middle, b);
    KidsAppend(a, middle);
    LitKids(a);
    LitKids(b);
    LitKids(c);
  }

  lemma {:induction false} FieldPiecesKids(prefix: Path, fields: seq<FieldValue>, n: nat, depth: nat, short: bool)
    requires n <= |fields|
    ensures KidsOf(FieldPieces(prefix, fields, n, depth, short)) == FieldKids(prefix, fields, n)
  {
    hide KidsOf;
    if n > 0 {
      var f := fields[n - 1];
      FieldPiecesKids(prefix, fields, n - 1, depth, short);
      KidsAround(FieldPieces(prefix, fields, n - 1, depth, short), Break(!short, depth + 1),
        Named(prefix + [SegField(f.name)], f.name, f.value, depth + 1, short), Comma(!short || n < |fields|));
    } else {
      LitKids([]);
    }
  }

  lemma {:induction false} ElemPiecesKids(prefix: Path, elems: seq<Value>, n: nat, depth: nat, short: bool)
    requires n <= |elems|
    ensures KidsOf(ElemPieces(prefix, elems, n, depth, short)) == ElemKids(prefix, elems, n)
  {
    hide KidsOf;
    if n > 0 {
      var before := ElemPieces(prefix, elems, n - 1, depth, short);
      var lead := if n > 1 then [Lit(", ")] else [];
      var place := Elem(prefix + [SegIndex(n - 1)], elems[n - 1], depth + 1, short);
      ElemPiecesKids(prefix, elems, n - 1, depth, short);
      KidsAround(before, lead, place, []);
      assert before + lead + [place] + [] == before + lead + [place];
    } else {
      LitKids([]);
    }
  }

  lemma {:induction false} ListPiecesKids(elems: seq<Value>, n: nat, depth: nat, short: bool, simple: bool)
    requires n <= |elems|
    ensures KidsOf(ListPieces(elems, n, depth, short, simple)) == ElemKids([], elems, n)
  {
    hide KidsOf;
    if n > 0 {
      ListPiecesKids(elems, n - 1, depth, short, simple);
      assert [] + [SegIndex(n - 1)] == [SegIndex(n - 1)];
      KidsAround(ListPieces(elems, n - 1, depth, short, simple), ListLead(n - 1, depth + 1, !short && !simple),
        Elem([SegIndex(n - 1)], elems[n - 1], depth + 1, short || simple), Comma((!short && !simple) || n < |elems|));
    } else {
      LitKids([]);
    }
  }

  lemma {:induction false} MapPiecesKids(entries: seq<Entry>, n: nat, depth: nat, short: bool)
    requires n <= |entries|
    ensures KidsOf(MapPieces(entries, n, depth, short)) == EntryKids(entries, n)
  {
    hide KidsOf;
    if n > 0 {
      var e := entries[n - 1];
      MapPiecesKids(entries, n - 1, depth, short);
      KidsAround(MapPieces(entries, n - 1, depth, short), Break(!short, depth + 1),
        Keyed([SegKey(e.keyText)], e.key, e.value, depth + 1, short), Comma(!short || n < |entries|));
    } else {
      LitKids([]);
    }
  }

  /** The places of a layout are the parts of the value, in the same order. */
  lemma PiecesKids(v: Value, depth: nat, short: bool)
    ensures KidsOf(Pieces(v, depth, short)) == Kids(v)
  {
    hide FieldPieces, ElemPieces, ListPieces, MapPieces, FieldKids, ElemKids, EntryKids, KidsOf, Break;
    match v {
      case VStruct(shape, fields) =>
        FieldPiecesKids([], fields, |fields|, depth, short);
        KidsWrapped([Lit(shape), Lit(" {")], FieldPieces([], fields, |fields|, depth, short), Break(!short, depth), [Lit("}")]);
      case VTuple(shape, isTuple, elems) =>
        ElemPiecesKids([], elems, |elems|, depth, short);
        KidsWrapped([Lit(shape), Lit(if isTuple then " " else ""), Lit("(")],
          ElemPieces([], elems, |elems|, depth, short), [], [Lit(")")]);
      case VEnumStruct(shape, variant, fields) =>
        FieldPiecesKids([SegVariant(variant)], fields, |fields|, depth, short);
        KidsWrapped([Lit(shape), Lit("::"), Lit(variant), Lit(" {")],
          FieldPieces([SegVariant(variant)], fields, |fields|, depth, short), Break(!short, depth), [Lit("}")]);
      case VEnumTuple(shape, variant, elems) =>
        ElemPiecesKids([SegVariant(variant)], elems, |elems|, depth, short);
        KidsWrapped([Lit(shape), Lit("::"), Lit(variant), Lit("(")],
          ElemPieces([SegVariant(variant)], elems, |elems|, depth, short), [], [Lit(")")]);
      case VList(simple, elems) =>
        ListPiecesKids(elems, |elems|, depth, short, simple);
        KidsWrapped([Lit("[")], ListPieces(elems, |elems|, depth, short, simple), Break(!short && !simple, depth), [Lit("]")]);
      case VMap(entries) =>
        MapPiecesKids(entries, |entries|, depth, short);
        KidsWrapped([Lit("{")], MapPieces(entries, |entries|, depth, short), Break(!short && entries != [], depth), [Lit("}")]);
      case _ => SmallPiecesKids(v, depth, short);
    }
  }

  lemma SmallPiecesKids(v: Value, depth: nat, short: bool)
    requires !v.VStruct? && !v.VTuple? && !v.VEnumStruct? && !v.VEnumTuple? && !v.VList? && !v.VMap?
    ensures KidsOf(Pieces(v, depth, short)) == Kids(v)
  {
    hide KidsOf;
    match v {
      case VSome(inner) =>
        KidsAround([], [Lit("Some(")], Inner(inner, depth, short), [Lit(")")]);
        assert [] + [Lit("Some(")] + [Inner(inner, depth, short)] + [Lit(")")] == Pieces(v, depth, short);
        LitKids([]);
      case VResult(shape, isOk, inner) =>
        var lead := [Lit(shape), Lit(if isOk then " Ok(" else " Err(")];
        KidsAround([], lead, Inner(inner, depth, short), [Lit(")")]);
        assert [] + lead + [Inner(inner, depth, short)] + [Lit(")")] == Pieces(v, depth, short);
        LitKids([]);
      case VProxied(proxy) => OneKid(Inner(proxy, depth, short));
      case VPointer(pointee) => OneKid(Inner(pointee, depth, short));
      case _ => LitKids(Pieces(v, depth, short));
    }
  }

  lemma OneKid(p: Piece)
    requires !p.Lit?
    ensures KidsOf([p]) == [Kid(Suffix(p).value, p.value)]
  {
    assert [p][1..] == [];
  }

  lemma {:induction false} KidsLighter(ps: seq<Piece>)
    ensures KidsWeight(KidsOf(ps)) <= PiecesWeight(ps)
  {
    if ps != [] {
      KidsLighter(ps[1..]);
      var kids := KidsOf(ps);
      assert !ps[0].Lit? ==> kids[1..] == KidsOf(ps[1..]);
      assert ps[0].Lit? ==> kids == KidsOf(ps[1..]);
    }
  }

  lemma KidsSmaller(v: Value)
    ensures KidsWeight(Kids(v)) <= Weight(v)
  {
    hide Kids, KidsOf, Pieces;
    if v.VPointer? {
      PointerKids(v);
    } else {
      PiecesKids(v, 0, false);
      KidsLighter(Pieces(v, 0, false));
      PiecesSmaller(v, 0, false);
    }
  }

  lemma PointerKids(v: Value)
    requires v.VPointer?
    ensures Kids(v) == [Kid([], v.pointee)] && KidsWeight(Kids(v)) == Weight(v)
  {
    assert Kids(v)[1..] == [];
  }

  /** A pointer's order is that of what it points to. */
  lemma {:induction false} PrecedesStrip(v: Value, p: Path, q: Path)
    ensures Precedes(v, p, q) == Precedes(Strip(v), p, q)
    decreases v
  {
    if v.VPointer? {
      PointerKids(v);
      PrecedesStrip(v.pointee, p, q);
    }
  }

  /**
    Spans come in document order: of two nodes on diverging paths, the one that the
    declarations put first is entirely written before the other's key begins.
   */
  lemma {:induction false} LocateOrdered(v: Value, depth: nat, short: bool, p: Path, q: Path)
    requires WellFormed(v) && !(p <= q) && !(q <= p)
    requires Locate(v, depth, short, p).Some? && Locate(v, depth, short, q).Some?
    ensures var a, b := Locate(v, depth, short, p).value, Locate(v, depth, short, q).value;
            if Precedes(v, p, q) then Before(a, b) else Before(b, a)
    decreases Weight(v), 1, 0
  {
    hide Pieces, LocateIn, GoodPieces, KidsOf, Kids;
    var ps := Pieces(Strip(v), depth, short);
    PiecesSmaller(Strip(v), depth, short);
    StripWellFormed(v);
    PiecesGood(Strip(v), depth, short);
    PrecedesStrip(v, p, q);
    PiecesKids(Strip(v), depth, short);
    LocateInOrdered(ps, p, q);
  }

  lemma {:induction false} LocateInOrdered(ps: seq<Piece>, p: Path, q: Path)
    requires GoodPieces(ps) && p != [] && q != [] && !(p <= q) && !(q <= p)
    requires LocateIn(ps, p).Some? && LocateIn(ps, q).Some?
    ensures var a, b := LocateIn(ps, p).value, LocateIn(ps, q).value;
            if PrecedesIn(KidsOf(ps), p, q) then Before(a, b) else Before(b, a)
    decreases PiecesWeight(ps), 0, |ps|
  {
    hide LocatePiece, RenderPiece, GoodPiece, Precedes;
    var piece := ps[0];
    LocatePieceShows(piece, p);
    LocatePieceShows(piece, q);
    if LocatePiece(piece, p).Some? { FoundBelowSuffix(piece, p); }
    if LocatePiece(piece, q).Some? { FoundBelowSuffix(piece, q); }
    if piece.Lit? {
      assert KidsOf(ps) == KidsOf(ps[1..]);
      LocateInOrdered(ps[1..], p, q);
    } else {
      assert KidsOf(ps)[1..] == KidsOf(ps[1..]);
      if Suffix(piece).value <= p { NotFoundAfter(ps, p); }
      if Suffix(piece).value <= q { NotFoundAfter(ps, q); }
      if Suffix(piece).value <= p && Suffix(piece).value <= q {
        LocatePieceOrdered(piece, p, q);
      } else if !(Suffix(piece).value <= p) && !(Suffix(piece).value <= q) {
        LocateInOrdered(ps[1..], p, q);
      }
    }
  }

  lemma {:induction false} LocatePieceOrdered(piece: Piece, p: Path, q: Path)
    requires GoodPiece(piece) && !piece.Lit? && p != [] && q != [] && !(p <= q) && !(q <= p)
    requires LocatePiece(piece, p).Some? && LocatePiece(piece, q).Some?
    ensures var a, b := LocatePiece(piece, p).value, LocatePiece(piece, q).value;
            var n := |Suffix(piece).value|;
            n <= |p| && n <= |q| && if Precedes(piece.value, p[n..], q[n..]) then Before(a, b) else Before(b, a)
    decreases PieceWeight(piece), 0, 0
  {
    hide Locate, Render, WellFormed, Precedes, LocatePiece, GoodPiece, IsScalar;
    FoundBelowSuffix(piece, p);
    FoundBelowSuffix(piece, q);
    PieceValueGood(piece);
    var n := |Suffix(piece).value|;
    DivergeBelow(Suffix(piece).value, p, q);
    LocatePieceAt(piece, p);
    LocatePieceAt(piece, q);
    LocateOrdered(piece.value, piece.depth, piece.short, p[n..], q[n..]);
  }

  /** Neither path lies below the other. */
  predicate Diverge(s: Path, t: Path) {
    !(s <= t) && !(t <= s)
  }

  ghost predicate KidsDiverge(kids: seq<Kid>) {
    forall k, l :: 0 <= k < l < |kids| ==> Diverge(kids[k].suffix, kids[l].suffix)
  }

  /** Among diverging parts the index decides. */
  lemma {:induction false} PrecedesByIndex(kids: seq<Kid>, i: nat, j: nat, p: Path, q: Path)
    requires i < j < |kids| && kids[i].suffix <= p && kids[j].suffix <= q
    requires KidsDiverge(kids)
    ensures PrecedesIn(kids, p, q) && !PrecedesIn(kids, q, p)
    decreases |kids|
  {
    hide Precedes;
    PrefixesCompare(kids[0].suffix, kids[i].suffix, p);
    PrefixesCompare(kids[0].suffix, kids[j].suffix, q);
    assert Diverge(kids[0].suffix, kids[j].suffix);
    assert i > 0 ==> Diverge(kids[0].suffix, kids[i].suffix);
    if i > 0 {
      PrecedesByIndex(kids[1..], i - 1, j - 1, p, q);
    }
  }

  /** The places of good pieces are apart, and so are the parts. */
  lemma {:induction false} KidsApart(ps: seq<Piece>)
    requires GoodPieces(ps)
    ensures KidsDiverge(KidsOf(ps))
  {
    hide GoodPiece, Diverge;
    if ps != [] {
      KidsApart(ps[1..]);
      var kids, rest := KidsOf(ps), KidsOf(ps[1..]);
      if !ps[0].Lit? {
        assert kids == [Kid(Suffix(ps[0]).value, ps[0].value)] + rest;
        forall k, l | 0 <= k < l < |kids|
          ensures Diverge(kids[k].suffix, kids[l].suffix)
        {
          assert kids[l] == rest[l - 1];
          if k == 0 {
            var m := PieceOfKid(ps[1..], l - 1);
            assert ps[1..][m] == ps[m + 1];
            ApartDiverge(ps[0], ps[m + 1]);
          } else {
            assert kids[k] == rest[k - 1];
          }
        }
      }
    }
  }

  lemma ApartDiverge(a: Piece, b: Piece)
    requires Apart(a, b) && !a.Lit? && !b.Lit?
    ensures Diverge(Suffix(a).value, Suffix(b).value)
  {
  }

  lemma {:induction false} PieceOfKid(ps: seq<Piece>, l: nat) returns (m: nat)
    requires l < |KidsOf(ps)|
    ensures m < |ps| && !ps[m].Lit? && Suffix(ps[m]) == Some(KidsOf(ps)[l].suffix)
  {
    if ps[0].Lit? {
      m := PieceOfKid(ps[1..], l);
      m := m + 1;
    } else if l == 0 {
      m := 0;
    } else {
      m := PieceOfKid(ps[1..], l - 1);
      m := m + 1;
    }
  }

  /**
    Siblings are written in order: whatever lies at or below the earlier field,
    element or entry is written before the key of whatever lies at or below the later.
   */
  lemma SiblingsInOrder(v: Value, depth: nat, short: bool, i: nat, j: nat, p: Path, q: Path)
    requires WellFormed(v) && i < j < |Kids(Strip(v))|
    requires Kids(Strip(v))[i].suffix <= p && Kids(Strip(v))[j].suffix <= q
    requires Locate(v, depth, short, p).Some? && Locate(v, depth, short, q).Some?
    ensures Before(Locate(v, depth, short, p).value, Locate(v, depth, short, q).value)
  {
    hide Kids, Locate, Pieces, WellFormed, GoodPieces, KidsOf;
    var kids := Kids(Strip(v));
    StripWellFormed(v);
    PiecesGood(Strip(v), depth, short);
    PiecesKids(Strip(v), depth, short);
    KidsApart(Pieces(Strip(v), depth, short));
    PrecedesByIndex(kids, i, j, p, q);
    PrecedesStrip(v, p, q);
    var s, t := kids[i].suffix, kids[j].suffix;
    assert Diverge(s, t);
    if p <= q { PrefixesCompare(s, t, q); }
    if q <= p { PrefixesCompare(s, t, p); }
    LocateOrdered(v, depth, short, p, q);
  }

  // ---------------------------------------------------------------- the text, constructor by constructor

  function Spaces(n: nat): Text {
    seq(n, _ => ' ')
  }

  /** The rows with `separator` between neighbours. */
  function Joined(rows: seq<Text>, separator: Text): Text {
    if rows == [] then ""
    else if |rows| == 1 then rows[0]
    else Joined(rows[..|rows| - 1], separator) + separator + rows[|rows| - 1]
  }

  /** Each row on a line of its own, one level deeper than `depth`, with a comma after it. */
  function Lined(rows: seq<Text>, depth: nat): Text {
    if rows == [] then ""
    else Lined(rows[..|rows| - 1], depth) + "\n" + Spaces((depth + 1) * INDENT_SIZE) + rows[|rows| - 1] + ","
  }

  /** Rows between brackets: on lines of their own, and the closing bracket too, or inline. */
  function Block(rows: seq<Text>, depth: nat, lines: bool, separator: Text): Text {
    if lines then Lined(rows, depth) + "\n" + Spaces(depth * INDENT_SIZE) else Joined(rows, separator)
  }

  /** The name of a field before its value. */
  function FieldRows(fields: seq<FieldValue>, texts: seq<Text>): seq<Text>
    requires |texts| == |fields|
  {
    seq(|fields|, i requires 0 <= i < |fields| => fields[i].name + ": " + texts[i])
  }

  function EntryRows(keys: seq<Text>, texts: seq<Text>): seq<Text>
    requires |texts| == |keys|
  {
    seq(|keys|, i requires 0 <= i < |keys| => keys[i] + ": " + texts[i])
  }

  ghost predicate PrintFields(fields: seq<FieldValue>, depth: nat, short: bool, texts: seq<Text>) {
    |texts| == |fields| && forall i :: 0 <= i < |fields| ==> Prints(fields[i].value, depth, short, texts[i])
  }

  ghost predicate PrintElems(elems: seq<Value>, depth: nat, short: bool, texts: seq<Text>) {
    |texts| == |elems| && forall i :: 0 <= i < |elems| ==> Prints(elems[i], depth, short, texts[i])
  }

  /** The elements of a list, inline if they are simple. */
  function ListBlock(texts: seq<Text>, simple: bool, depth: nat, short: bool): Text {
    Block(texts, depth, !short && !simple, ", ")
  }

  ghost predicate PrintEntries(entries: seq<Entry>, depth: nat, short: bool, keys: seq<Text>, texts: seq<Text>) {
    && |keys| == |entries| && |texts| == |entries|
    && forall i :: 0 <= i < |entries| ==>
         Prints(entries[i].key, depth, true, keys[i]) && Prints(entries[i].value, depth, short, texts[i])
  }

  /**
    `t` is the text of `v`: for each constructor the fixed text around and between the
    texts of its parts, on several lines or inline.
   */
  ghost predicate Prints(v: Value, depth: nat, short: bool, t: Text) {
    match v
    case VPointer(pointee) => Prints(pointee, depth, short, t)
    case VProxied(proxy) => Prints(proxy, depth, short, t)
    case VString(s) => t == "\"" + s + "\""
    case VScalar(text) => t == text
    case VNone => t == "None"
    case VSome(inner) => exists u :: Prints(inner, depth, short, u) && t == "Some(" + u + ")"
    case VResult(shape, isOk, inner) =>
      exists u :: Prints(inner, depth, short, u) && t == shape + (if isOk then " Ok(" else " Err(") + u + ")"
    case VUnit(shape) => t == shape
    case VStruct(shape, fields) =>
      exists us :: PrintFields(fields, depth + 1, short, us)
                   && t == shape + " {" + Block(FieldRows(fields, us), depth, !short, ",") + "}"
    case VTuple(shape, isTuple, elems) =>
      exists us :: PrintElems(elems, depth + 1, short, us)
                   && t == shape + (if isTuple then " (" else "(") + Joined(us, ", ") + ")"
    case VEnumUnit(shape, variant) => t == shape + "::" + variant
    case VEnumStruct(shape, variant, fields) =>
      exists us :: PrintFields(fields, depth + 1, short, us)
                   && t == shape + "::" + variant + " {" + Block(FieldRows(fields, us), depth, !short, ",") + "}"
    case VEnumTuple(shape, variant, elems) =>
      exists us :: PrintElems(elems, depth + 1, short, us)
                   && t == shape + "::" + variant + "(" + Joined(us, ", ") + ")"
    case VEnumUnknown(shape) => t == shape + " { /* cannot determine variant */ }"
    case VList(simple, elems) =>
      exists us :: PrintElems(elems, depth + 1, short || simple, us) && t == "[" + ListBlock(us, simple, depth, short) + "]"
    case VMap(entries) =>
      exists keys, us :: PrintEntries(entries, depth + 1, short, keys, us)
                   && t == "{" + Block(EntryRows(keys, us), depth, !short && entries != [], ",") + "}"
    case VOther(shape) => t == shape + " { ... }"
  }

  lemma {:induction false} RenderAppend(a: seq<Piece>, b: seq<Piece>)
    ensures RenderPieces(a + b) == RenderPieces(a) + RenderPieces(b)
    decreases |a|
  {
    hide RenderPiece;
    if a == [] {
      assert a + b == b;
    } else {
      assert (a + b)[0] == a[0] && (a + b)[1..] == a[1..] + b;
      RenderAppend(a[1..], b);
    }
  }

  lemma RenderOne(p: Piece)
    ensures RenderPieces([p]) == RenderPiece(p) && RenderPieces([]) == ""
  {
    assert [p][1..] == [];
  }

  lemma RenderAround(before: seq<Piece>, a: seq<Piece>, p: Piece, b: seq<Piece>)
    ensures RenderPieces(before + a + [p] + b) == RenderPieces(before) + RenderPieces(a) + RenderPiece(p) + RenderPieces(b)
  {
    hide RenderPieces, RenderPiece;
    RenderAppend(before + a + [p], b);
    RenderAppend(before + a, [p]);
    RenderAppend(before, a);
    RenderOne(p);
  }

  lemma RenderLits(on: bool, depth: nat)
    ensures RenderPieces(Break(on, depth)) == if on then "\n" + Spaces(depth * INDENT_SIZE) else ""
    ensures RenderPieces(Comma(on)) == if on then "," else ""
  {
    hide RenderPieces;
    RenderOne(Lit(""));
    var b := Break(on, depth);
    if on {
      assert b == [Lit("\n")] + [Lit(Indent(depth))];
      RenderAppend([Lit("\n")], [Lit(Indent(depth))]);
      RenderOne(Lit("\n"));
      RenderOne(Lit(Indent(depth)));
      assert Indent(depth) == Spaces(depth * INDENT_SIZE);
      RenderOne(Lit(","));
    }
  }

  /** The first `n` rows, with the comma that follows them unless they are all. */
  function RowsSoFar(rows: seq<Text>, n: nat, depth: nat, lines: bool, separator: Text): Text
    requires n <= |rows|
  {
    if lines then Lined(rows[..n], depth) else Joined(rows[..n], separator) + if 0 < n < |rows| then "," else ""
  }

  lemma RowsNext(rows: seq<Text>, n: nat, depth: nat, lines: bool, gap: Text)
    requires 0 < n <= |rows|
    ensures RowsSoFar(rows, n, depth, lines, "," + gap) ==
              RowsSoFar(rows, n - 1, depth, lines, "," + gap)
                + (if lines then "\n" + Spaces((depth + 1) * INDENT_SIZE) else if n > 1 then gap else "")
                + rows[n - 1] + (if lines || n < |rows| then "," else "")
  {
    hide Spaces;
    assert rows[..n][..n - 1] == rows[..n - 1];
  }

  lemma {:induction false} FieldPiecesText(prefix: Path, fields: seq<FieldValue>, n: nat, depth: nat, short: bool, texts: seq<Text>)
    requires n <= |fields| && |texts| == |fields|
    requires forall i :: 0 <= i < |fields| ==> texts[i] == Render(fields[i].value, depth + 1, short)
    ensures RenderPieces(FieldPieces(prefix, fields, n, depth, short)) == RowsSoFar(FieldRows(fields, texts), n, depth, !short, ",")
  {
    hide Render, RenderPieces, Break, Comma, RowsSoFar, Spaces;
    if n == 0 {
      RenderOne(Lit(""));
      NoRows(FieldRows(fields, texts), depth, !short, ",");
    } else {
      var f, rows := fields[n - 1], FieldRows(fields, texts);
      var place := Named(prefix + [SegField(f.name)], f.name, f.value, depth + 1, short);
      FieldPiecesText(prefix, fields, n - 1, depth, short, texts);
      RenderAround(FieldPieces(prefix, fields, n - 1, depth, short), Break(!short, depth + 1), place, Comma(!short || n < |fields|));
      RenderLits(!short, depth + 1);
      RenderLits(!short || n < |fields|, 0);
      RowsNext(rows, n, depth, !short, "");
      assert "," + "" == ",";
      assert RenderPiece(place) == rows[n - 1];
    }
  }

  lemma NoRows(rows: seq<Text>, depth: nat, lines: bool, separator: Text)
    ensures RowsSoFar(rows, 0, depth, lines, separator) == ""
  {
  }

  lemma {:induction false} ElemPiecesText(prefix: Path, elems: seq<Value>, n: nat, depth: nat, short: bool, texts: seq<Text>)
    requires n <= |elems| && |texts| == |elems|
    requires forall i :: 0 <= i < |elems| ==> texts[i] == Render(elems[i], depth + 1, short)
    ensures RenderPieces(ElemPieces(prefix, elems, n, depth, short)) == Joined(texts[..n], ", ")
  {
    hide Render, RenderPieces;
    if n == 0 {
      RenderOne(Lit(""));
    } else {
      var before := ElemPieces(prefix, elems, n - 1, depth, short);
      var lead := if n > 1 then [Lit(", ")] else [];
      var place := Elem(prefix + [SegIndex(n - 1)], elems[n - 1], depth + 1, short);
      ElemPiecesText(prefix, elems, n - 1, depth, short, texts);
      RenderAround(before, lead, place, []);
      RenderOne(Lit(", "));
      assert before + lead + [place] + [] == before + lead + [place];
      assert texts[..n][..n - 1] == texts[..n - 1];
    }
  }

  lemma {:induction false} ListPiecesText(elems: seq<Value>, n: nat, depth: nat, short: bool, simple: bool, texts: seq<Text>)
    requires n <= |elems| && |texts| == |elems|
    requires forall i :: 0 <= i < |elems| ==> texts[i] == Render(elems[i], depth + 1, short || simple)
    ensures RenderPieces(ListPieces(elems, n, depth, short, simple)) == RowsSoFar(texts, n, depth, !short && !simple, ", ")
  {
    hide Render, RenderPieces, Break, Comma, ListLead, RowsSoFar, Spaces;
    var lines := !short && !simple;
    if n == 0 {
      RenderOne(Lit(""));
      NoRows(texts, depth, lines, ", ");
    } else {
      var place := Elem([SegIndex(n - 1)], elems[n - 1], depth + 1, short || simple);
      ListPiecesText(elems, n - 1, depth, short, simple, texts);
      RenderAround(ListPieces(elems, n - 1, depth, short, simple), ListLead(n - 1, depth + 1, lines), place, Comma(lines || n < |elems|));
      LeadText(n - 1, depth + 1, lines);
      RenderLits(lines || n < |elems|, 0);
      RowsNext(texts, n, depth, lines, " ");
      assert "," + " " == ", ";
    }
  }

  lemma LeadText(n: nat, depth: nat, lines: bool)
    ensures RenderPieces(ListLead(n, depth, lines)) ==
              if lines then "\n" + Spaces(depth * INDENT_SIZE) else if n > 0 then " " else ""
  {
    hide RenderPieces;
    RenderLits(true, depth);
    RenderOne(Lit(" "));
  }

  lemma {:induction false} MapPiecesText(entries: seq<Entry>, n: nat, depth: nat, short: bool, keys: seq<Text>, texts: seq<Text>)
    requires n <= |entries| && |texts| == |entries| && |keys| == |entries|
    requires forall i :: 0 <= i < |entries| ==> keys[i] == Render(entries[i].key, depth + 1, true)
    requires forall i :: 0 <= i < |entries| ==> texts[i] == Render(entries[i].value, depth + 1, short)
    ensures RenderPieces(MapPieces(entries, n, depth, short)) == RowsSoFar(EntryRows(keys, texts), n, depth, !short, ",")
  {
    hide Render, RenderPieces, Break, Comma, RowsSoFar, Spaces, MapPieces, EntryRows, RenderPiece;
    var rows := EntryRows(keys, texts);
    if n == 0 {
      MapPiecesNone(entries, depth, short);
      NoRows(rows, depth, !short, ",");
    } else {
      var e := entries[n - 1];
      var place := Keyed([SegKey(e.keyText)], e.key, e.value, depth + 1, short);
      MapPiecesText(entries, n - 1, depth, short, keys, texts);
      MapPiecesNext(entries, n, depth, short);
      RenderAround(MapPieces(entries, n - 1, depth, short), Break(!short, depth + 1), place, Comma(!short || n < |entries|));
      RenderLits(!short, depth + 1);
      RenderLits(!short || n < |entries|, 0);
      EntryRow(entries, n, depth, short, keys, texts);
      RowsNext(rows, n, depth, !short, "");
      assert "," + "" == ",";
    }
  }

  lemma MapPiecesNone(entries: seq<Entry>, depth: nat, short: bool)
    ensures RenderPieces(MapPieces(entries, 0, depth, short)) == ""
  {
  }

  lemma MapPiecesNext(entries: seq<Entry>, n: nat, depth: nat, short: bool)
    requires 0 < n <= |entries|
    ensures var e := entries[n - 1];
            MapPieces(entries, n, depth, short) == MapPieces(entries, n - 1, depth, short) + Break(!short, depth + 1)
              + [Keyed([SegKey(e.keyText)], e.key, e.value, depth + 1, short)] + Comma(!short || n < |entries|)
  {
  }

  lemma EntryRow(entries: seq<Entry>, n: nat, depth: nat, short: bool, keys: seq<Text>, texts: seq<Text>)
    requires 0 < n <= |entries| && |texts| == |entries| && |keys| == |entries|
    requires keys[n - 1] == Render(entries[n - 1].key, depth + 1, true)
    requires texts[n - 1] == Render(entries[n - 1].value, depth + 1, short)
    ensures var e := entries[n - 1];
            && |EntryRows(keys, texts)| == |entries|
            && RenderPiece(Keyed([SegKey(e.keyText)], e.key, e.value, depth + 1, short)) == EntryRows(keys, texts)[n - 1]
  {
    hide Render;
  }

  function FieldTexts(fields: seq<FieldValue>, depth: nat, short: bool): seq<Text> {
    seq(|fields|, i requires 0 <= i < |fields| => Render(fields[i].value, depth, short))
  }

  function ElemTexts(elems: seq<Value>, depth: nat, short: bool): seq<Text> {
    seq(|elems|, i requires 0 <= i < |elems| => Render(elems[i], depth, short))
  }

  function KeyTexts(entries: seq<Entry>, depth: nat): seq<Text> {
    seq(|entries|, i requires 0 <= i < |entries| => Render(entries[i].key, depth, true))
  }

  function ValueTexts(entries: seq<Entry>, depth: nat, short: bool): seq<Text> {
    seq(|entries|, i requires 0 <= i < |entries| => Render(entries[i].value, depth, short))
  }

  /** Fixed text, rows, and a closing bracket on a line of its own if the rows are on lines. */
  lemma BlockText(a: seq<Piece>, middle: seq<Piece>, depth: nat, lines: bool, c: Piece, rows: seq<Text>, separator: Text)
    requires RenderPieces(middle) == RowsSoFar(rows, |rows|, depth, lines, separator)
    ensures RenderPieces(a + middle + Break(lines, depth) + [c])
         == RenderPieces(a) + Block(rows, depth, lines, separator) + RenderPiece(c)
  {
    hide RenderPieces, RenderPiece, Break, Lined, Joined, Spaces, RowsSoFar;
    var brk := Break(lines, depth);
    WrapText(a + middle, brk, c);
    RenderAppend(a, middle);
    RenderLits(lines, depth);
    AllRows(rows, depth, lines, separator);
  }

  lemma AllRows(rows: seq<Text>, depth: nat, lines: bool, separator: Text)
    ensures RowsSoFar(rows, |rows|, depth, lines, separator) == if lines then Lined(rows, depth) else Joined(rows, separator)
  {
    assert rows[..|rows|] == rows;
  }

  lemma HeadText(a: Text, b: Text, c: Text, d: Text)
    ensures RenderPieces([Lit(a), Lit(b)]) == a + b
    ensures RenderPieces([Lit(a), Lit(b), Lit(c)]) == a + b + c
    ensures RenderPieces([Lit(a), Lit(b), Lit(c), Lit(d)]) == a + b + c + d
  {
    assert [Lit(a), Lit(b)] == [Lit(a)] + [Lit(b)];
    assert [Lit(a), Lit(b), Lit(c)] == [Lit(a), Lit(b)] + [Lit(c)];
    assert [Lit(a), Lit(b), Lit(c), Lit(d)] == [Lit(a), Lit(b), Lit(c)] + [Lit(d)];
    RenderAppend([Lit(a)], [Lit(b)]);
    RenderAppend([Lit(a), Lit(b)], [Lit(c)]);
    RenderAppend([Lit(a), Lit(b), Lit(c)], [Lit(d)]);
    RenderOne(Lit(a));
    RenderOne(Lit(b));
    RenderOne(Lit(c));
    RenderOne(Lit(d));
  }

  lemma StructText(shape: Text, fields: seq<FieldValue>, depth: nat, short: bool)
    ensures Render(VStruct(shape, fields), depth, short)
         == shape + " {" + Block(FieldRows(fields, FieldTexts(fields, depth + 1, short)), depth, !short, ",") + "}"
  {
    hide RenderPieces, FieldPieces, Break, Block, RowsSoFar;
    var texts := FieldTexts(fields, depth + 1, short);
    FieldPiecesText([], fields, |fields|, depth, short, texts);
    BlockText([Lit(shape), Lit(" {")], FieldPieces([], fields, |fields|, depth, short), depth, !short, Lit("}"), FieldRows(fields, texts), ",");
    HeadText(shape, " {", "", "");
  }

  lemma VariantStructText(shape: Text, variant: Text, fields: seq<FieldValue>, depth: nat, short: bool)
    ensures Render(VEnumStruct(shape, variant, fields), depth, short) == shape + "::" + variant + " {"
              + Block(FieldRows(fields, FieldTexts(fields, depth + 1, short)), depth, !short, ",") + "}"
  {
    hide RenderPieces, FieldPieces, Break, Block, RowsSoFar;
    var texts := FieldTexts(fields, depth + 1, short);
    FieldPiecesText([SegVariant(variant)], fields, |fields|, depth, short, texts);
    BlockText([Lit(shape), Lit("::"), Lit(variant), Lit(" {")], FieldPieces([SegVariant(variant)], fields, |fields|, depth, short),
      depth, !short, Lit("}"), FieldRows(fields, texts), ",");
    HeadText(shape, "::", variant, " {");
  }

  lemma WrapText(a: seq<Piece>, middle: seq<Piece>, c: Piece)
    ensures RenderPieces(a + middle + [c]) == RenderPieces(a) + RenderPieces(middle) + RenderPiece(c)
  {
    hide RenderPieces, RenderPiece;
    RenderAppend(a + middle, [c]);
    RenderAppend(a, middle);
    RenderOne(c);
  }

  lemma TupleText(shape: Text, isTuple: bool, elems: seq<Value>, depth: nat, short: bool)
    ensures Render(VTuple(shape, isTuple, elems), depth, short)
         == shape + (if isTuple then " (" else "(") + Joined(ElemTexts(elems, depth + 1, short), ", ") + ")"
  {
    hide RenderPieces, ElemPieces, Joined;
    var texts, gap := ElemTexts(elems, depth + 1, short), if isTuple then " " else "";
    ElemPiecesText([], elems, |elems|, depth, short, texts);
    WrapText([Lit(shape), Lit(gap), Lit("(")], ElemPieces([], elems, |elems|, depth, short), Lit(")"));
    HeadText(shape, gap, "(", "");
    assert texts[..|elems|] == texts;
    assert shape + gap + "(" == shape + (if isTuple then " (" else "(");
  }

  lemma VariantTupleText(shape: Text, variant: Text, elems: seq<Value>, depth: nat, short: bool)
    ensures Render(VEnumTuple(shape, variant, elems), depth, short)
         == shape + "::" + variant + "(" + Joined(ElemTexts(elems, depth + 1, short), ", ") + ")"
  {
    hide RenderPieces, ElemPieces, Joined;
    var texts := ElemTexts(elems, depth + 1, short);
    ElemPiecesText([SegVariant(variant)], elems, |elems|, depth, short, texts);
    WrapText([Lit(shape), Lit("::"), Lit(variant), Lit("(")], ElemPieces([SegVariant(variant)], elems, |elems|, depth, short), Lit(")"));
    HeadText(shape, "::", variant, "(");
    assert texts[..|elems|] == texts;
  }

  lemma ListText(simple: bool, elems: seq<Value>, depth: nat, short: bool)
    ensures Render(VList(simple, elems), depth, short)
         == "[" + Block(ElemTexts(elems, depth + 1, short || simple), depth, !short && !simple, ", ") + "]"
  {
    hide RenderPieces, ListPieces, Break, Block, RowsSoFar;
    var texts := ElemTexts(elems, depth + 1, short || simple);
    ListPiecesText(elems, |elems|, depth, short, simple, texts);
    BlockText([Lit("[")], ListPieces(elems, |elems|, depth, short, simple), depth, !short && !simple, Lit("]"), texts, ", ");
    RenderOne(Lit("["));
  }

  lemma MapText(entries: seq<Entry>, depth: nat, short: bool)
    ensures Render(VMap(entries), depth, short)
         == "{" + Block(EntryRows(KeyTexts(entries, depth + 1), ValueTexts(entries, depth + 1, short)), depth, !short && entries != [], ",") + "}"
  {
    hide RenderPieces, MapPieces, Break, Block, RowsSoFar;
    var keys, texts := KeyTexts(entries, depth + 1), ValueTexts(entries, depth + 1, short);
    var rows := EntryRows(keys, texts);
    MapPiecesText(entries, |entries|, depth, short, keys, texts);
    if entries == [] {
      NoRows(rows, depth, true, ",");
      NoRows(rows, depth, false, ",");
    }
    BlockText([Lit("{")], MapPieces(entries, |entries|, depth, short), depth, !short && entries != [], Lit("}"), rows, ",");
    RenderOne(Lit("{"));
  }

  lemma SmallText(v: Value, depth: nat, short: bool)
    ensures v.VString? ==> Render(v, depth, short) == "\"" + v.s + "\""
    ensures v.VScalar? ==> Render(v, depth, short) == v.text
    ensures v.VNone? ==> Render(v, depth, short) == "None"
    ensures v.VSome? ==> Render(v, depth, short) == "Some(" + Render(v.inner, depth, short) + ")"
    ensures v.VResult? ==>
              Render(v, depth, short) == v.shape + (if v.isOk then " Ok(" else " Err(") + Render(v.inner, depth, short) + ")"
    ensures v.VUnit? ==> Render(v, depth, short) == v.shape
    ensures v.VEnumUnit? ==> Render(v, depth, short) == v.shape + "::" + v.variant
    ensures v.VEnumUnknown? ==> Render(v, depth, short) == v.shape + " { /* cannot determine variant */ }"
    ensures v.VOther? ==> Render(v, depth, short) == v.shape + " { ... }"
    ensures v.VProxied? ==> Render(v, depth, short) == Render(v.proxy, depth, short)
    ensures v.VPointer? ==> Render(v, depth, short) == Render(v.pointee, depth, short)
  {
    hide RenderPieces;
    match v {
      case VString(text) => HeadText("\"", text, "\"", "");
      case VScalar(text) => RenderOne(Lit(text));
      case VNone => RenderOne(Lit("None"));
      case VSome(inner) =>
        WrapText([Lit("Some(")], [Inner(inner, depth, short)], Lit(")"));
        RenderOne(Lit("Some("));
        RenderOne(Inner(inner, depth, short));
        assert [Lit("Some(")] + [Inner(inner, depth, short)] + [Lit(")")] == Pieces(v, depth, short);
      case VResult(shape, isOk, inner) =>
        var mark := if isOk then " Ok(" else " Err(";
        WrapText([Lit(shape), Lit(mark)], [Inner(inner, depth, short)], Lit(")"));
        HeadText(shape, mark, "", "");
        RenderOne(Inner(inner, depth, short));
        assert [Lit(shape), Lit(mark)] + [Inner(inner, depth, short)] + [Lit(")")] == Pieces(v, depth, short);
      case VUnit(shape) => RenderOne(Lit(shape));
      case VEnumUnit(shape, variant) => HeadText(shape, "::", variant, "");
      case VEnumUnknown(shape) => HeadText(shape, " { /* cannot determine variant */ }", "", "");
      case VOther(shape) => HeadText(shape, " { ... }", "", "");
      case VProxied(proxy) => RenderOne(Inner(proxy, depth, short));
      case _ =>
    }
  }

  /** The rendering is the one text that the constructors allow. */
  lemma {:induction false} PrintsRender(v: Value, depth: nat, short: bool, t: Text)
    ensures Prints(v, depth, short, t) <==> t == Render(v, depth, short)
    decreases v, 2
  {
    hide Render, Prints, PrintFields, PrintElems, PrintEntries, Block, Joined, FieldRows, EntryRows, ListBlock;
    if v.VStruct? || v.VEnumStruct? {
      PrintsFieldsOf(v, depth, short, t);
    } else if v.VTuple? || v.VEnumTuple? || v.VList? {
      PrintsElemsOf(v, depth, short, t);
    } else if v.VMap? {
      PrintsEntriesOf(v, depth, short, t);
    } else {
      PrintsSmall(v, depth, short, t);
    }
  }

  lemma {:induction false} PrintsSmall(v: Value, depth: nat, short: bool, t: Text)
    requires !v.VStruct? && !v.VTuple? && !v.VEnumStruct? && !v.VEnumTuple? && !v.VList? && !v.VMap?
    ensures Prints(v, depth, short, t) <==> t == Render(v, depth, short)
    decreases v, 1
  {
    hide Render, PrintFields, PrintElems, PrintEntries, Block, Joined, FieldRows, EntryRows, ListBlock;
    SmallText(v, depth, short);
    match v {
      case VPointer(pointee) => PrintsRender(pointee, depth, short, t);
      case VProxied(proxy) => PrintsRender(proxy, depth, short, t);
      case VSome(inner) =>
        forall u ensures Prints(inner, depth, short, u) <==> u == Render(inner, depth, short) { PrintsRender(inner, depth, short, u); }
        assert Prints(inner, depth, short, Render(inner, depth, short));
      case VResult(_, _, inner) =>
        forall u ensures Prints(inner, depth, short, u) <==> u == Render(inner, depth, short) { PrintsRender(inner, depth, short, u); }
        assert Prints(inner, depth, short, Render(inner, depth, short));
      case _ =>
    }
  }

  lemma {:induction false} PrintsFieldsOf(v: Value, depth: nat, short: bool, t: Text)
    requires v.VStruct? || v.VEnumStruct?
    ensures Prints(v, depth, short, t) <==> t == Render(v, depth, short)
    decreases v, 1
  {
    hide Render, Block, FieldRows, PrintFields, FieldTexts;
    PrintFieldsRender(v, v.fields, depth + 1, short);
    if v.VStruct? {
      StructText(v.shape, v.fields, depth, short);
    } else {
      VariantStructText(v.shape, v.variant, v.fields, depth, short);
    }
    assert PrintFields(v.fields, depth + 1, short, FieldTexts(v.fields, depth + 1, short));
  }

  lemma {:induction false} PrintsElemsOf(v: Value, depth: nat, short: bool, t: Text)
    requires v.VTuple? || v.VEnumTuple? || v.VList?
    ensures Prints(v, depth, short, t) <==> t == Render(v, depth, short)
    decreases v, 1
  {
    hide Render, Joined, PrintElems, ElemTexts, ListBlock;
    var inline := if v.VList? then short || v.simple else short;
    PrintElemsRender(v, v.elems, depth + 1, inline);
    if v.VTuple? {
      TupleText(v.shape, v.isTuple, v.elems, depth, short);
    } else if v.VEnumTuple? {
      VariantTupleText(v.shape, v.variant, v.elems, depth, short);
    } else {
      ListText(v.simple, v.elems, depth, short);
      ListBlockIs(ElemTexts(v.elems, depth + 1, inline), v.simple, depth, short);
    }
    assert PrintElems(v.elems, depth + 1, inline, ElemTexts(v.elems, depth + 1, inline));
  }

  lemma ListBlockIs(texts: seq<Text>, simple: bool, depth: nat, short: bool)
    ensures ListBlock(texts, simple, depth, short) == Block(texts, depth, !short && !simple, ", ")
  {
  }

  lemma {:induction false} PrintsEntriesOf(v: Value, depth: nat, short: bool, t: Text)
    requires v.VMap?
    ensures Prints(v, depth, short, t) <==> t == Render(v, depth, short)
    decreases v, 1
  {
    hide Render, Block, EntryRows, PrintEntries, KeyTexts, ValueTexts;
    PrintEntriesRender(v, v.entries, depth + 1, short);
    MapText(v.entries, depth, short);
    var keys, us := KeyTexts(v.entries, depth + 1), ValueTexts(v.entries, depth + 1, short);
    assert PrintEntries(v.entries, depth + 1, short, keys, us);
  }

  /** Wherever a value is printed, what is appended is a text that its constructors allow, and no other is. */
  lemma EmitPrints(v: Value, path: Path, depth: nat, short: bool, out: Output)
    ensures exists u :: Prints(v, depth, short, u) && Emit(v, path, depth, short, out).text == out.text + u
    ensures forall u :: Prints(v, depth, short, u) ==> Emit(v, path, depth, short, out).text == out.text + u
  {
    hide Emit, Render, Prints;
    EmitText(v, path, depth, short, out);
    forall u ensures Prints(v, depth, short, u) <==> u == Render(v, depth, short) {
      PrintsRender(v, depth, short, u);
    }
    assert Prints(v, depth, short, Render(v, depth, short));
  }

  lemma {:induction false} PrintFieldsRender(v: Value, fields: seq<FieldValue>, depth: nat, short: bool)
    requires forall i :: 0 <= i < |fields| ==> fields[i].value < v
    ensures forall us :: PrintFields(fields, depth, short, us) <==> us == FieldTexts(fields, depth, short)
    decreases v, 0
  {
    hide Render, Prints;
    forall i, u | 0 <= i < |fields| ensures Prints(fields[i].value, depth, short, u) <==> u == Render(fields[i].value, depth, short) {
      PrintsRender(fields[i].value, depth, short, u);
    }
  }

  lemma {:induction false} PrintElemsRender(v: Value, elems: seq<Value>, depth: nat, short: bool)
    requires forall i :: 0 <= i < |elems| ==> elems[i] < v
    ensures forall us :: PrintElems(elems, depth, short, us) <==> us == ElemTexts(elems, depth, short)
    decreases v, 0
  {
    hide Render, Prints;
    forall i, u | 0 <= i < |elems| ensures Prints(elems[i], depth, short, u) <==> u == Render(elems[i], depth, short) {
      PrintsRender(elems[i], depth, short, u);
    }
  }

  lemma {:induction false} PrintEntriesRender(v: Value, entries: seq<Entry>, depth: nat, short: bool)
    requires forall i :: 0 <= i < |entries| ==> entries[i].key < v && entries[i].value < v
    ensures forall keys, us :: PrintEntries(entries, depth, short, keys, us) <==>
              keys == KeyTexts(entries, depth) && us == ValueTexts(entries, depth, short)
    decreases v, 0
  {
    hide Render, Prints;
    forall i, u | 0 <= i < |entries| ensures Prints(entries[i].key, depth, true, u) <==> u == Render(entries[i].key, depth, true) {
      PrintsRender(entries[i].key, depth, true, u);
    }
    forall i, u | 0 <= i < |entries| ensures Prints(entries[i].value, depth, short, u) <==> u == Render(entries[i].value, depth, short) {
      PrintsRender(entries[i].value, depth, short, u);
    }
  }

  // ---------------------------------------------------------------- the printer

  class SpanPrinter {
    var output: Text
    var spans: map<Path, FieldSpan>

    constructor ()
      ensures output == "" && spans == map[]
    {
      output, spans := "", map[];
    }

    function State(): Output
      reads this
    {
      Output(output, spans)
    }

    function Position(): nat
      reads this
    {
      |output|
    }

    method WriteStr(text: Text)
      modifies this`output
      ensures output == old(output) + text
    {
      output := output + text;
    }

    method RecordSpan(path: Path, start: nat)
      modifies this`spans
      ensures State() == Record(old(State()), path, Since(old(State()), start), Since(old(State()), start))
    {
      var span := Span(start, Position());
      spans := spans[path := FieldSpan(span, span)];
    }

    method RecordFieldSpan(path: Path, key: Span, value: Span)
      modifies this`spans
      ensures State() == Record(old(State()), path, key, value)
    {
      spans := spans[path := FieldSpan(key, value)];
    }

    method FormatUnified(v: Value, path: Path, depth: nat, short: bool)
      modifies this
      ensures State() == Emit(v, path, depth, short, old(State()))
      decreases Weight(v), 5
    {
      hide EmitPieces, Pieces;
      var value := v;
      while value.VPointer?
        invariant Strip(value) == Strip(v) && Weight(value) <= Weight(v) && State() == old(State())
        decreases value
      {
        StripStep(value);
        value := value.pointee;
      }
      var valueStart := Position();
      FormatContents(value, path, depth, short);
      RecordSpan(path, valueStart);
    }

    /** The match on the shape. */
    method FormatContents(v: Value, path: Path, depth: nat, short: bool)
      requires !v.VPointer?
      modifies this
      ensures State() == EmitPieces(Pieces(v, depth, short), path, old(State()))
      decreases Weight(v), 4
    {
      hide EmitPieces, Emit, FieldPieces, ElemPieces, ListPieces, MapPieces, Break, FieldsWeight, ElemsWeight, EntriesWeight;
      ghost var out := State();
      match v {
        case VString(s) =>
          WriteStr("\"");
          WriteStr(s);
          WriteStr("\"");
          EmitThree(Lit("\""), Lit(s), Lit("\""), path, out);
        case VScalar(text) =>
          WriteStr(text);
          EmitOne(Lit(text), path, out);
        case VNone =>
          WriteStr("None");
          EmitOne(Lit("None"), path, out);
        case VSome(inner) =>
          WriteStr("Some(");
          FormatUnified(inner, path, depth, short);
          WriteStr(")");
          EmitThree(Lit("Some("), Inner(inner, depth, short), Lit(")"), path, out);
        case VResult(shape, isOk, inner) =>
          WriteStr(shape);
          WriteStr(if isOk then " Ok(" else " Err(");
          FormatUnified(inner, path, depth, short);
          WriteStr(")");
          EmitOne(Lit(shape), path, out);
          EmitAppend([Lit(shape)],
            [Lit(if isOk then " Ok(" else " Err("), Inner(inner, depth, short), Lit(")")], path, out);
          EmitThree(Lit(if isOk then " Ok(" else " Err("), Inner(inner, depth, short), Lit(")"), path, Write(out, shape));
          assert Pieces(v, depth, short) ==
            [Lit(shape)] + [Lit(if isOk then " Ok(" else " Err("), Inner(inner, depth, short), Lit(")")];
        case VUnit(shape) =>
          WriteStr(shape);
          EmitOne(Lit(shape), path, out);
        case VStruct(shape, fields) => FormatStruct([Lit(shape), Lit(" {")], [], fields, path, depth, short);
        case VTuple(shape, isTuple, elems) =>
          FormatTuple([Lit(shape), Lit(if isTuple then " " else ""), Lit("(")], [], elems, path, depth, short);
        case VEnumUnit(shape, variant) =>
          WriteStr(shape);
          WriteStr("::");
          WriteStr(variant);
          EmitThree(Lit(shape), Lit("::"), Lit(variant), path, out);
        case VEnumStruct(shape, variant, fields) =>
          FormatStruct([Lit(shape), Lit("::"), Lit(variant), Lit(" {")], [SegVariant(variant)], fields, path, depth, short);
        case VEnumTuple(shape, variant, elems) =>
          FormatTuple([Lit(shape), Lit("::"), Lit(variant), Lit("(")], [SegVariant(variant)], elems, path, depth, short);
        case VEnumUnknown(shape) =>
          WriteStr(shape);
          WriteStr(" { /* cannot determine variant */ }");
          EmitTwo(Lit(shape), Lit(" { /* cannot determine variant */ }"), path, out);
        case VList(simple, elems) => FormatList(simple, elems, path, depth, short);
        case VMap(entries) => FormatMap(entries, path, depth, short);
        case VProxied(proxy) =>
          FormatUnified(proxy, path, depth, short);
          EmitOne(Inner(proxy, depth, short), path, out);
        case VOther(shape) =>
          WriteStr(shape);
          WriteStr(" { ... }");
          EmitTwo(Lit(shape), Lit(" { ... }"), path, out);
      }
    }

    /** Pieces that are all fixed text. */
    method WriteLits(lits: seq<Piece>, path: Path)
      requires AllLits(lits)
      modifies this`output
      ensures State() == EmitPieces(lits, path, old(State()))
    {
      hide EmitPieces;
      ghost var out := State();
      EmitNone(path, out);
      for i := 0 to |lits|
        invariant State() == EmitPieces(lits[..i], path, out)
      {
        EmitSnoc(lits, i, path, out);
        WriteStr(lits[i].text);
      }
      assert lits[..|lits|] == lits;
    }

    method FormatStruct(head: seq<Piece>, prefix: Path, fields: seq<FieldValue>, path: Path, depth: nat, short: bool)
      requires AllLits(head)
      modifies this
      ensures State() ==
              EmitPieces(head + FieldPieces(prefix, fields, |fields|, depth, short) + Break(!short, depth) + [Lit("}")],
                         path, old(State()))
      decreases 1 + FieldsWeight(fields), 3
    {
      hide EmitPieces, EmitPiece, Break, Comma, ListLead;
      ghost var out := State();
      WriteLits(head, path);
      EmitNothingAfter(head, path, out);
      for i := 0 to |fields|
        invariant State() == EmitPieces(head + FieldPieces(prefix, fields, i, depth, short), path, out)
      {
        FieldLighter(fields, i);
        var f := fields[i];
        ghost var before := head + FieldPieces(prefix, fields, i, depth, short);
        ghost var place := Named(prefix + [SegField(f.name)], f.name, f.value, depth + 1, short);
        WriteLits(Break(!short, depth + 1), path);
        FormatField(f, path, prefix + [SegField(f.name)], depth + 1, short);
        WriteLits(Comma(!short || i + 1 < |fields|), path);
        EmitAround(before, Break(!short, depth + 1), place, Comma(!short || i + 1 < |fields|), path, out);
        assert head + FieldPieces(prefix, fields, i + 1, depth, short) ==
          before + Break(!short, depth + 1) + [place] + Comma(!short || i + 1 < |fields|);
      }
      ghost var all := head + FieldPieces(prefix, fields, |fields|, depth, short);
      WriteLits(Break(!short, depth), path);
      WriteLits([Lit("}")], path);
      EmitAppend(all, Break(!short, depth), path, out);
      EmitAppend(all + Break(!short, depth), [Lit("}")], path, out);
    }

    method FormatField(f: FieldValue, path: Path, suffix: Path, depth: nat, short: bool)
      modifies this
      ensures State() == EmitPiece(Named(suffix, f.name, f.value, depth, short), path, old(State()))
      decreases Weight(f.value), 6
    {
      hide Emit;
      var nameStart := Position();
      WriteStr(f.name);
      var nameEnd := Position();
      WriteStr(": ");
      var valueStart := Position();
      FormatUnified(f.value, path + suffix, depth, short);
      RecordFieldSpan(path + suffix, Span(nameStart, nameEnd), Span(valueStart, Position()));
    }

    method FormatTuple(head: seq<Piece>, prefix: Path, elems: seq<Value>, path: Path, depth: nat, short: bool)
      requires AllLits(head)
      modifies this
      ensures State() ==
              EmitPieces(head + ElemPieces(prefix, elems, |elems|, depth, short) + [Lit(")")], path, old(State()))
      decreases 1 + ElemsWeight(elems), 3
    {
      hide EmitPieces, EmitPiece;
      ghost var out := State();
      WriteLits(head, path);
      EmitNothingAfter(head, path, out);
      for i := 0 to |elems|
        invariant State() == EmitPieces(head + ElemPieces(prefix, elems, i, depth, short), path, out)
      {
        ElemLighter(elems, i);
        ghost var before := head + ElemPieces(prefix, elems, i, depth, short);
        ghost var place := Elem(prefix + [SegIndex(i)], elems[i], depth + 1, short);
        var lead := if i > 0 then [Lit(", ")] else [];
        WriteLits(lead, path);
        FormatElem(elems[i], path, prefix + [SegIndex(i)], depth + 1, short);
        EmitNone(path, State());
        EmitAround(before, lead, place, [], path, out);
        assert head + ElemPieces(prefix, elems, i + 1, depth, short) == before + lead + [place] + [];
      }
      WriteLits([Lit(")")], path);
      EmitAppend(head + ElemPieces(prefix, elems, |elems|, depth, short), [Lit(")")], path, out);
    }

    method FormatElem(v: Value, path: Path, suffix: Path, depth: nat, short: bool)
      modifies this
      ensures State() == EmitPiece(Elem(suffix, v, depth, short), path, old(State()))
      decreases Weight(v), 6
    {
      hide Emit;
      var start := Position();
      FormatUnified(v, path + suffix, depth, short);
      RecordSpan(path + suffix, start);
    }

    method FormatList(simple: bool, elems: seq<Value>, path: Path, depth: nat, short: bool)
      modifies this
      ensures State() == EmitPieces(Pieces(VList(simple, elems), depth, short), path, old(State()))
      decreases 1 + ElemsWeight(elems), 3
    {
      hide EmitPieces, EmitPiece, Break, Comma, ListLead, ListPieces, Pieces;
      ListStart(elems, depth, short, simple);
      ghost var out := State();
      WriteLits([Lit("[")], path);
      EmitNothingAfter([Lit("[")], path, out);
      for i := 0 to |elems|
        invariant State() == EmitPieces([Lit("[")] + ListPieces(elems, i, depth, short, simple), path, out)
      {
        ElemLighter(elems, i);
        ghost var before := [Lit("[")] + ListPieces(elems, i, depth, short, simple);
        ghost var place := Elem([SegIndex(i)], elems[i], depth + 1, short || simple);
        var lead := ListLead(i, depth + 1, !short && !simple);
        var comma := Comma((!short && !simple) || i + 1 < |elems|);
        WriteLits(lead, path);
        FormatElem(elems[i], path, [SegIndex(i)], depth + 1, short || simple);
        WriteLits(comma, path);
        EmitAround(before, lead, place, comma, path, out);
        ListNext(elems, i, depth, short, simple);
      }
      ghost var all := [Lit("[")] + ListPieces(elems, |elems|, depth, short, simple);
      WriteLits(Break(!short && !simple, depth), path);
      WriteLits([Lit("]")], path);
      EmitAppend(all, Break(!short && !simple, depth), path, out);
      EmitAppend(all + Break(!short && !simple, depth), [Lit("]")], path, out);
    }

    method FormatMap(entries: seq<Entry>, path: Path, depth: nat, short: bool)
      modifies this
      ensures State() == EmitPieces(Pieces(VMap(entries), depth, short), path, old(State()))
      decreases 1 + EntriesWeight(entries), 3
    {
      hide EmitPieces, EmitPiece, Break, Comma, ListLead;
      ghost var out := State();
      WriteLits([Lit("{")], path);
      EmitNothingAfter([Lit("{")], path, out);
      for i := 0 to |entries|
        invariant State() == EmitPieces([Lit("{")] + MapPieces(entries, i, depth, short), path, out)
      {
        EntryLighter(entries, i);
        var e := entries[i];
        ghost var before := [Lit("{")] + MapPieces(entries, i, depth, short);
        ghost var place := Keyed([SegKey(e.keyText)], e.key, e.value, depth + 1, short);
        WriteLits(Break(!short, depth + 1), path);
        FormatEntry(e, path, depth + 1, short);
        WriteLits(Comma(!short || i + 1 < |entries|), path);
        EmitAround(before, Break(!short, depth + 1), place, Comma(!short || i + 1 < |entries|), path, out);
        assert [Lit("{")] + MapPieces(entries, i + 1, depth, short) ==
          before + Break(!short, depth + 1) + [place] + Comma(!short || i + 1 < |entries|);
      }
      ghost var all := [Lit("{")] + MapPieces(entries, |entries|, depth, short);
      WriteLits(Break(!short && entries != [], depth), path);
      WriteLits([Lit("}")], path);
      EmitAppend(all, Break(!short && entries != [], depth), path, out);
      EmitAppend(all + Break(!short && entries != [], depth), [Lit("}")], path, out);
    }

    method FormatEntry(e: Entry, path: Path, depth: nat, short: bool)
      modifies this
      ensures State() == EmitPiece(Keyed([SegKey(e.keyText)], e.key, e.value, depth, short), path, old(State()))
      decreases Weight(e.key) + Weight(e.value), 6
    {
      hide Emit;
      var keyStart := Position();
      FormatUnified(e.key, [], depth, true);
      var keyEnd := Position();
      WriteStr(": ");
      var entryPath := path + [SegKey(e.keyText)];
      var valueStart := Position();
      FormatUnified(e.value, entryPath, depth, short);
      RecordFieldSpan(entryPath, Span(keyStart, keyEnd), Span(valueStart, Position()));
    }
  }

  lemma ListStart(elems: seq<Value>, depth: nat, short: bool, simple: bool)
    ensures [Lit("[")] + ListPieces(elems, 0, depth, short, simple) == [Lit("[")]
    ensures Pieces(VList(simple, elems), depth, short) ==
              [Lit("[")] + ListPieces(elems, |elems|, depth, short, simple) + Break(!short && !simple, depth) + [Lit("]")]
  {
  }

  lemma ListNext(elems: seq<Value>, i: nat, depth: nat, short: bool, simple: bool)
    requires i < |elems|
    ensures var place := Elem([SegIndex(i)], elems[i], depth + 1, short || simple);
            [Lit("[")] + ListPieces(elems, i + 1, depth, short, simple) ==
              [Lit("[")] + ListPieces(elems, i, depth, short, simple)
                + ListLead(i, depth + 1, !short && !simple) + [place] + Comma((!short && !simple) || i + 1 < |elems|)
  {
  }

  lemma StripStep(v: Value)
    requires v.VPointer?
    ensures Strip(v.pointee) == Strip(v) && Weight(v.pointee) < Weight(v)
  {
  }

  lemma EmitNone(path: Path, out: Output)
    ensures EmitPieces([], path, out) == out
  {
  }

  lemma EmitOne(a: Piece, path: Path, out: Output)
    ensures EmitPieces([a], path, out) == EmitPiece(a, path, out)
  {
    assert [a][1..] == [];
  }

  lemma EmitTwo(a: Piece, b: Piece, path: Path, out: Output)
    ensures EmitPieces([a, b], path, out) == EmitPiece(b, path, EmitPiece(a, path, out))
  {
    assert [a, b][1..] == [b];
    EmitOne(b, path, EmitPiece(a, path, out));
  }

  lemma EmitThree(a: Piece, b: Piece, c: Piece, path: Path, out: Output)
    ensures EmitPieces([a, b, c], path, out) == EmitPiece(c, path, EmitPiece(b, path, EmitPiece(a, path, out)))
  {
    assert [a, b, c][1..] == [b, c];
    EmitTwo(b, c, path, EmitPiece(a, path, out));
  }

  lemma EmitSnoc(ps: seq<Piece>, i: nat, path: Path, out: Output)
    requires i < |ps|
    ensures EmitPieces(ps[..i + 1], path, out) == EmitPiece(ps[i], path, EmitPieces(ps[..i], path, out))
  {
    assert ps[..i + 1] == ps[..i] + [ps[i]];
    EmitAppend(ps[..i], [ps[i]], path, out);
    EmitOne(ps[i], path, EmitPieces(ps[..i], path, out));
  }

  lemma EmitNothingAfter(head: seq<Piece>, path: Path, out: Output)
    ensures head + [] == head
  {
  }

  lemma EmitAround(before: seq<Piece>, a: seq<Piece>, p: Piece, b: seq<Piece>, path: Path, out: Output)
    ensures EmitPieces(before + a + [p] + b, path, out) ==
            EmitPieces(b, path, EmitPiece(p, path, EmitPieces(a, path, EmitPieces(before, path, out))))
  {
    EmitAppend(before + a + [p], b, path, out);
    EmitAppend(before + a, [p], path, out);
    EmitAppend(before, a, path, out);
    EmitOne(p, path, EmitPieces(before + a, path, out));
  }

  lemma {:induction false} FieldLighter(fields: seq<FieldValue>, i: nat)
    requires i < |fields|
    ensures Weight(fields[i].value) < 1 + FieldsWeight(fields)
  {
    var n := |fields| - 1;
    if i < n { FieldLighter(fields[..n], i); }
  }

  lemma {:induction false} ElemLighter(elems: seq<Value>, i: nat)
    requires i < |elems|
    ensures Weight(elems[i]) < 1 + ElemsWeight(elems)
  {
    var n := |elems| - 1;
    if i < n { ElemLighter(elems[..n], i); }
  }

  lemma {:induction false} EntryLighter(entries: seq<Entry>, i: nat)
    requires i < |entries|
    ensures Weight(entries[i].key) + Weight(entries[i].value) < 1 + EntriesWeight(entries)
  {
    var n := |entries| - 1;
    if i < n { EntryLighter(entries[..n], i); }
  }

  /** The span map has an entry for each node path and no other, and the entry shows that node's key and text. */
  ghost predicate Recorded(v: Value, text: Text, spans: map<Path, FieldSpan>) {
    forall p :: RecordedAt(v, text, spans, p)
  }

  ghost predicate RecordedAt(v: Value, text: Text, spans: map<Path, FieldSpan>, p: Path) {
    var f := Locate(v, 0, false, p);
    && (p in spans <==> f.Some?)
    && (f.Some? && p in spans ==> spans[p] == SpansOf(0, f.value) && Shows(text, f.value))
  }

  /**
    `format_peek_with_spans`: the text is the rendering of any value, and when field
    names and scalar keys tell siblings apart, the span map records exactly its nodes.
   */
  method FormatPeekWithSpans(v: Value) returns (text: Text, spans: map<Path, FieldSpan>)
    ensures Prints(v, 0, false, text)
    ensures text == Render(v, 0, false)
    ensures WellFormed(v) ==> Recorded(v, text, spans)
  {
    hide Emit, Render, Locate, WellFormed, Shows, Prints;
    var printer := new SpanPrinter();
    ghost var out := printer.State();
    printer.FormatUnified(v, [], 0, false);
    text, spans := printer.output, printer.spans;
    EmitText(v, [], 0, false, out);
    assert "" + Render(v, 0, false) == Render(v, 0, false);
    PrintsRender(v, 0, false, text);
    if WellFormed(v) {
      forall p ensures RecordedAt(v, text, spans, p) {
        EmitSettles(v, [], 0, false, out, p);
        LocateShows(v, 0, false, p);
        assert [] + p == p;
      }
    }
  }
}
