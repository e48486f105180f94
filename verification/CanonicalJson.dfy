/**
  Canonical JSON text.  Object fields are printed in key order, numbers by `CanonicalNumber`, and
  strings with the escapes of section 7 of RFC 8259.  Two values print to the same text exactly
  when they are the same value up to object key order and numeric notation.
*/
module CanonicalJson {
  import opened Sequences
  import opened CanonicalNumber

  /** An integer, or a decimal with its sign, coefficient and exponent, as the JSON reader makes them. */
  datatype Json =
    | Null
    | Bool(b: bool)
    | Int(n: int)
    | Dec(negative: bool, coefficient: nat, exponent: int)
    | Str(s: string)
    | Arr(items: seq<Json>)
    | Obj(fields: seq<(string, Json)>)

  // ---- printing ----------------------------------------------------------------------------------

  function Hex(d: nat): (c: char)
    requires d < 16
    ensures '0' <= c <= '9' || 'a' <= c <= 'f'
  {
    if d < 10 then ('0' as int + d) as char else ('a' as int + d - 10) as char
  }

  function Escape(c: char): string {
    if c == '\"' then "\\\""
    else if c == '\\' then "\\\\"
    else if c == '\n' then "\\n"
    else if c == '\r' then "\\r"
    else if c == '\t' then "\\t"
    else if c == 12 as char then "\\f"
    else if c == 8 as char then "\\b"
    else if c < 32 as char then "\\u00" + [Hex(c as int / 16), Hex(c as int % 16)]
    else [c]
  }

  function Escaped(s: string): string {
    if s == "" then "" else Escape(s[0]) + Escaped(s[1..])
  }

  function Quote(s: string): string { "\"" + Escaped(s) + "\"" }

  function Join(parts: seq<string>): string {
    if parts == [] then ""
    else if |parts| == 1 then parts[0]
    else parts[0] + "," + Join(parts[1..])
  }

  predicate KeyBefore(a: (string, string), b: (string, string)) { TextBefore(a.0, b.0) }

  function FieldText(f: (string, string)): string { Quote(f.0) + ":" + f.1 }

  function FieldTexts(fs: seq<(string, string)>): seq<string> {
    seq(|fs|, i requires 0 <= i < |fs| => FieldText(fs[i]))
  }

  function Signed(negative: bool, m: int): int { if negative then -m else m }

  /** A number as the JSON reader makes it, or as the printer's decimal context leaves it. */
  datatype Reading = AsRead | AsPrinted

  /** The number a value stands for: coefficient and exponent. */
  function NumberOf(r: Reading, v: Json): (int, int)
    requires v.Int? || v.Dec?
  {
    if v.Int? then (v.n, 0)
    else
      var (m, e) := if r.AsRead? then (v.coefficient, v.exponent) else Rounded(v.coefficient, v.exponent);
      (Signed(v.negative, m), e)
  }

  function Number(v: Json): (int, int)
    requires v.Int? || v.Dec?
  {
    NumberOf(AsPrinted, v)
  }

  function Text(v: Json): string
    decreases v
  {
    match v
    case Null => "null"
    case Bool(b) => if b then "true" else "false"
    case Int(n) => IntegerText(n)
    case Dec(_, _, _) => NumberText(Number(v).0, Number(v).1)
    case Str(s) => Quote(s)
    case Arr(items) => "[" + Join(seq(|items|, i requires 0 <= i < |items| => Text(items[i]))) + "]"
    case Obj(fields) =>
      var printed := seq(|fields|, i requires 0 <= i < |fields| => (fields[i].0, Text(fields[i].1)));
      "{" + Join(FieldTexts(Sort(KeyBefore, printed))) + "}"
  }

  function Texts(items: seq<Json>): seq<string> {
    seq(|items|, i requires 0 <= i < |items| => Text(items[i]))
  }

  function Printed(fields: seq<(string, Json)>): seq<(string, string)> {
    seq(|fields|, i requires 0 <= i < |fields| => (fields[i].0, Text(fields[i].1)))
  }

  lemma TextUnfolds(v: Json)
    ensures v.Arr? ==> Text(v) == "[" + Join(Texts(v.items)) + "]"
    ensures v.Obj? ==> Text(v) == "{" + Join(FieldTexts(Sort(KeyBefore, Printed(v.fields)))) + "}"
  {
    if v.Arr? {
      assert Texts(v.items) == seq(|v.items|, i requires 0 <= i < |v.items| => Text(v.items[i]));
    } else if v.Obj? {
      assert Printed(v.fields)
          == seq(|v.fields|, i requires 0 <= i < |v.fields| => (v.fields[i].0, Text(v.fields[i].1)));
    }
  }

  // ---- sameness ----------------------------------------------------------------------------------

  predicate IsNumber(v: Json) { v.Int? || v.Dec? }

  ghost predicate SameNumbers(r: Reading, a: Json, b: Json)
    requires IsNumber(a) && IsNumber(b)
  {
    SameNumber(NumberOf(r, a).0, NumberOf(r, a).1, NumberOf(r, b).0, NumberOf(r, b).1)
  }

  /** Equal up to object key order and the notation of numbers, under one reading of numbers. */
  ghost predicate Alike(r: Reading, a: Json, b: Json)
    decreases a, 0
  {
    if IsNumber(a) || IsNumber(b) then IsNumber(a) && IsNumber(b) && SameNumbers(r, a, b)
    else
      match a
      case Arr(items) =>
        b.Arr? && |items| == |b.items| && forall i :: 0 <= i < |items| ==> Alike(r, items[i], b.items[i])
      case Obj(fields) =>
        b.Obj? && |fields| == |b.fields| && forall i :: 0 <= i < |fields| ==> HasField(r, fields[i], b.fields)
      case _ => a == b
  }

  ghost predicate HasField(r: Reading, f: (string, Json), fields: seq<(string, Json)>)
    decreases f.1, 1
  {
    exists j :: 0 <= j < |fields| && f.0 == fields[j].0 && Alike(r, f.1, fields[j].1)
  }

  /** The same JSON value: equal up to object key order, numbers compared as they were read. */
  ghost predicate Same(a: Json, b: Json) { Alike(AsRead, a, b) }

  /** No decimal has anything but zeros beyond the 28 digits the printer keeps. */
  predicate Exact(v: Json)
    decreases v
  {
    match v
    case Dec(_, m, _) => m % Pow10(Excess(m)) == 0
    case Arr(items) => forall i :: 0 <= i < |items| ==> Exact(items[i])
    case Obj(fields) => forall i :: 0 <= i < |fields| ==> Exact(fields[i].1)
    case _ => true
  }

  /** Object keys are distinct, as in a dictionary. */
  ghost predicate WellFormed(v: Json)
    decreases v
  {
    match v
    case Arr(items) => forall i :: 0 <= i < |items| ==> WellFormed(items[i])
    case Obj(fields) =>
      && (forall i :: 0 <= i < |fields| ==> WellFormed(fields[i].1))
      && (forall i, j :: 0 <= i < j < |fields| ==> fields[i].0 != fields[j].0)
    case _ => true
  }

  // ---- strings split uniquely --------------------------------------------------------------------

  /** The escapes of section 7 of RFC 8259, from the reader's side. */
  function SimpleEscape(c: char): Option<char> {
    if c == '\"' || c == '\\' || c == '/' then Some(c)
    else if c == 'b' then Some(8 as char)
    else if c == 'f' then Some(12 as char)
    else if c == 'n' then Some(10 as char)
    else if c == 'r' then Some(13 as char)
    else if c == 't' then Some(9 as char)
    else None
  }

  function HexValue(c: char): Option<nat> {
    if '0' <= c <= '9' then Some(c as int - '0' as int)
    else if 'a' <= c <= 'f' then Some(c as int - 'a' as int + 10)
    else if 'A' <= c <= 'F' then Some(c as int - 'A' as int + 10)
    else None
  }

  /** Four hexadecimal digits naming a character; surrogates are not characters. */
  function CodePoint(a: char, b: char, c: char, d: char): Option<char> {
    var w, x, y, z := HexValue(a), HexValue(b), HexValue(c), HexValue(d);
    if w.None? || x.None? || y.None? || z.None? then None
    else
      var code := ((w.value * 16 + x.value) * 16 + y.value) * 16 + z.value;
      if code < 0xD800 || 0xE000 <= code < 0x10000 then Some(code as char) else None
  }

  /** The first character of a string body and what follows it; a bare control character is an error. */
  function ReadChar(t: string): Option<(char, string)> {
    if t == "" || t[0] == '\"' || t[0] < 32 as char then None
    else if t[0] != '\\' then Some((t[0], t[1..]))
    else if |t| < 2 then None
    else if t[1] != 'u' then
      match SimpleEscape(t[1])
      case None => None
      case Some(c) => Some((c, t[2..]))
    else if |t| < 6 then None
    else
      match CodePoint(t[2], t[3], t[4], t[5])
      case None => None
      case Some(c) => Some((c, t[6..]))
  }

  /** A reader for the text after an opening quote: the string, and what follows its closing quote. */
  function ReadString(t: string): Option<(string, string)>
    decreases |t|
  {
    if t != "" && t[0] == '\"' then Some(("", t[1..]))
    else
      match ReadChar(t)
      case None => None
      case Some((c, after)) =>
        if |after| >= |t| then None
        else
          match ReadString(after)
          case None => None
          case Some((s, rest)) => Some(([c] + s, rest))
  }

  lemma HexReads(d: nat)
    requires d < 16
    ensures HexValue(Hex(d)) == Some(d)
  {
  }

  /** Every escaped character reads back as itself. */
  lemma EscapeReads(c: char, x: string)
    ensures ReadChar(Escape(c) + x) == Some((c, x))
    ensures Escape(c) != "" && Escape(c)[0] != '\"'
  {
    var t := Escape(c) + x;
    assert t[|Escape(c)|..] == x;
    if |Escape(c)| == 6 {
      HexReads(0);
      HexReads(c as int / 16);
      HexReads(c as int % 16);
      assert t[1] == 'u' && t[2] == '0' && t[3] == '0';
      assert t[4] == Hex(c as int / 16) && t[5] == Hex(c as int % 16);
    } else if |Escape(c)| == 2 {
      assert t[1] == Escape(c)[1];
    }
  }

  /** The rest of the text once a string's opening quote is read. */
  function Rest(s: string, x: string): string { Escaped(s) + "\"" + x }

  lemma RestCons(s: string, x: string)
    requires s != ""
    ensures Rest(s, x) == Escape(s[0]) + Rest(s[1..], x)
  {
    Reassociate(Escape(s[0]), Escaped(s[1..]), "\"", x);
  }

  lemma Reassociate(a: string, b: string, c: string, d: string)
    ensures a + b + c + d == a + (b + c + d)
  {
  }

  /** A printed string reads back, whatever follows it. */
  lemma {:induction false} StringReadsBack(s: string, x: string)
    ensures ReadString(Rest(s, x)) == Some((s, x))
  {
    if s == "" {
      assert Rest(s, x)[1..] == x;
    } else {
      RestCons(s, x);
      StringReadsBack(s[1..], x);
      ReadsOneMore(s[0], Rest(s[1..], x), s[1..], x);
      assert s == [s[0]] + s[1..];
    }
  }

  lemma ReadsOneMore(c: char, after: string, s: string, x: string)
    requires ReadString(after) == Some((s, x))
    ensures ReadString(Escape(c) + after) == Some(([c] + s, x))
  {
    EscapeReads(c, after);
    ReadsThrough(Escape(c) + after, c, after, s, x);
  }

  lemma ReadsThrough(t: string, c: char, after: string, s: string, x: string)
    requires t != "" && t[0] != '\"' && ReadChar(t) == Some((c, after)) && |after| < |t|
    requires ReadString(after) == Some((s, x))
    ensures ReadString(t) == Some(([c] + s, x))
  {
  }

  lemma EscapedSplits(s: string, x: string, t: string, y: string)
    requires Rest(s, x) == Rest(t, y)
    ensures s == t && x == y
  {
    StringReadsBack(s, x);
    StringReadsBack(t, y);
  }

  lemma QuoteSplits(s: string, x: string, t: string, y: string)
    requires Quote(s) + x == Quote(t) + y
    ensures s == t && x == y
  {
    assert (Quote(s) + x)[1..] == Rest(s, x);
    assert (Quote(t) + y)[1..] == Rest(t, y);
    EscapedSplits(s, x, t, y);
  }

  // ---- parts of a list split uniquely ------------------------------------------------------------

  predicate Closes(c: char) { c == ',' || c == ']' || c == '}' }

  /** What may follow a value. */
  ghost predicate Ends(x: string) { x != "" ==> Closes(x[0]) }

  /** A value's text never starts with a closing character. */
  ghost predicate Opens(p: string) { p != "" && !Closes(p[0]) }

  /** Whatever may follow them, two texts agree only when equal. */
  ghost predicate Splits(p: string, q: string) {
    forall x, y :: Ends(x) && Ends(y) && p + x == q + y ==> p == q
  }

  lemma UseSplits(p: string, x: string, q: string, y: string)
    requires Splits(p, q) && Ends(x) && Ends(y) && p + x == q + y
    ensures p == q && x == y
  {
    assert (p + x)[|p|..] == x && (q + y)[|q|..] == y;
  }

  /** A joined list with its closing character and what follows. */
  function Listed(parts: seq<string>, close: char, x: string): string { Join(parts) + [close] + x }

  /** What follows the first part of a list. */
  function Tail(parts: seq<string>, close: char, x: string): string
    requires parts != []
  {
    if |parts| == 1 then [close] + x else "," + Listed(parts[1..], close, x)
  }

  lemma ListedStarts(parts: seq<string>, close: char, x: string)
    requires Closes(close) && (parts != [] ==> Opens(parts[0]))
    ensures Listed(parts, close, x)[0] == close <==> parts == []
    ensures parts == [] ==> Listed(parts, close, x)[1..] == x
    ensures parts != [] ==> Listed(parts, close, x) == parts[0] + Tail(parts, close, x)
  {
    if parts != [] { ListedCons(parts, close, x); }
  }

  lemma ListedCons(parts: seq<string>, close: char, x: string)
    requires parts != []
    ensures Listed(parts, close, x) == parts[0] + Tail(parts, close, x)
  {
    if |parts| > 1 {
      Reassociate(parts[0] + ",", Join(parts[1..]), [close], x);
      Reassociate(parts[0], ",", Join(parts[1..]) + [close] + x, "");
    } else {
      Reassociate(parts[0], [close], x, "");
    }
  }

  lemma TailStarts(parts: seq<string>, close: char, x: string)
    requires parts != [] && Closes(close) && close != ','
    ensures Ends(Tail(parts, close, x))
    ensures Tail(parts, close, x)[0] == close <==> |parts| == 1
    ensures Tail(parts, close, x)[1..] == if |parts| == 1 then x else Listed(parts[1..], close, x)
  {
  }

  lemma {:induction false} JoinSplits(ts: seq<string>, us: seq<string>, close: char, x: string, y: string)
    requires close == ']' || close == '}'
    requires forall t :: t in ts ==> Opens(t)
    requires forall u :: u in us ==> Opens(u)
    requires forall t, u :: t in ts && u in us ==> Splits(t, u)
    requires Listed(ts, close, x) == Listed(us, close, y)
    ensures ts == us && x == y
  {
    ListedStarts(ts, close, x);
    ListedStarts(us, close, y);
    if ts != [] {
      assert ts[0] in ts && us[0] in us;
      TailStarts(ts, close, x);
      TailStarts(us, close, y);
      UseSplits(ts[0], Tail(ts, close, x), us[0], Tail(us, close, y));
      assert ts == [ts[0]] + ts[1..] && us == [us[0]] + us[1..];
      if |ts| > 1 { JoinSplits(ts[1..], us[1..], close, x, y); }
    }
  }

  // ---- values split uniquely ---------------------------------------------------------------------

  lemma NumberTextOf(v: Json)
    requires IsNumber(v)
    ensures Text(v) == NumberText(Number(v).0, Number(v).1)
    ensures Text(v) != "" && All(IsNumberChar, Text(v))
  {
    if v.Int? { IntegerIsNumber(v.n); }
    NumberChars(Number(v).0, Number(v).1);
  }

  /** The kind of a value shows in the first character of its text. */
  function KindOf(v: Json): nat {
    match v
    case Null => 0
    case Bool(b) => if b then 1 else 2
    case Int(_) => 3
    case Dec(_, _, _) => 3
    case Str(_) => 4
    case Arr(_) => 5
    case Obj(_) => 6
  }

  function KindAt(c: char): nat {
    if c == 'n' then 0 else if c == 't' then 1 else if c == 'f' then 2
    else if IsNumberChar(c) then 3
    else if c == '\"' then 4 else if c == '[' then 5 else if c == '{' then 6 else 7
  }

  lemma TextStarts(v: Json)
    ensures Opens(Text(v)) && KindAt(Text(v)[0]) == KindOf(v)
  {
    TextUnfolds(v);
    if IsNumber(v) { NumberTextOf(v); }
  }

  lemma NumbersSplit(a: Json, b: Json)
    requires IsNumber(a) && IsNumber(b)
    ensures Splits(Text(a), Text(b))
  {
    NumberTextOf(a);
    NumberTextOf(b);
    forall x, y | Ends(x) && Ends(y) && Text(a) + x == Text(b) + y ensures Text(a) == Text(b) {
      SplitAlike(IsNumberChar, Text(a), x, Text(b), y);
    }
  }

  lemma FieldParts(f: (string, string), x: string, g: (string, string), y: string)
    requires FieldText(f) + x == FieldText(g) + y
    ensures f.0 == g.0 && f.1 + x == g.1 + y
  {
    Reassociate(Quote(f.0), ":", f.1, x);
    Reassociate(Quote(g.0), ":", g.1, y);
    QuoteSplits(f.0, ":" + f.1 + x, g.0, ":" + g.1 + y);
    AfterColon(f.1, x, g.1, y);
  }

  lemma AfterColon(s: string, x: string, t: string, y: string)
    requires ":" + s + x == ":" + t + y
    ensures s + x == t + y
  {
    assert (":" + s + x)[1..] == s + x && (":" + t + y)[1..] == t + y;
  }

  lemma FieldsSplit(f: (string, string), g: (string, string))
    requires Splits(f.1, g.1)
    ensures Splits(FieldText(f), FieldText(g))
  {
    forall x, y | Ends(x) && Ends(y) && FieldText(f) + x == FieldText(g) + y ensures FieldText(f) == FieldText(g) {
      FieldParts(f, x, g, y);
      UseSplits(f.1, x, g.1, y);
    }
  }

  lemma SortedField(fields: seq<(string, Json)>, f: (string, string)) returns (i: nat)
    requires f in Sort(KeyBefore, Printed(fields))
    ensures i < |fields| && f == (fields[i].0, Text(fields[i].1))
  {
    SortMembers(KeyBefore, Printed(fields));
    i := IndexIn(Printed(fields), f);
  }

  lemma TextsOpen(items: seq<Json>)
    ensures forall t :: t in Texts(items) ==> Opens(t)
  {
    forall t | t in Texts(items) ensures Opens(t) {
      var i := IndexIn(Texts(items), t);
      TextStarts(items[i]);
    }
  }

  lemma FieldTextsOpen(fs: seq<(string, string)>)
    ensures forall t :: t in FieldTexts(fs) ==> Opens(t)
  {
  }

  /** The parts between an array's or an object's brackets. */
  function Parts(v: Json): seq<string>
    requires v.Arr? || v.Obj?
  {
    if v.Arr? then Texts(v.items) else FieldTexts(Sort(KeyBefore, Printed(v.fields)))
  }

  function Closer(v: Json): char { if v.Arr? then ']' else '}' }

  lemma PartsOpen(v: Json)
    requires v.Arr? || v.Obj?
    ensures forall t :: t in Parts(v) ==> Opens(t)
  {
    if v.Arr? { TextsOpen(v.items); } else { FieldTextsOpen(Sort(KeyBefore, Printed(v.fields))); }
  }

  lemma AfterBracket(v: Json, x: string)
    requires v.Arr? || v.Obj?
    ensures (Text(v) + x)[1..] == Listed(Parts(v), Closer(v), x)
  {
    TextUnfolds(v);
    DropFirst(if v.Arr? then '[' else '{', Join(Parts(v)), Closer(v), x);
  }

  lemma DropFirst(c: char, s: string, d: char, x: string)
    ensures ([c] + s + [d] + x)[1..] == s + [d] + x
  {
  }

  /** Whatever may follow two printed values, their texts agree only when equal. */
  lemma {:induction false} TextSplits(a: Json, b: Json)
    ensures Splits(Text(a), Text(b))
    decreases a
  {
    TextStarts(a);
    TextStarts(b);
    if KindOf(a) == KindOf(b) {
      match a
      case Int(_) => NumbersSplit(a, b);
      case Dec(_, _, _) => NumbersSplit(a, b);
      case Str(s) =>
        forall x, y | Ends(x) && Ends(y) && Text(a) + x == Text(b) + y ensures Text(a) == Text(b) {
          QuoteSplits(s, x, b.s, y);
        }
      case Arr(_) => ItemsSplit(a, b); BracketedSplit(a, b);
      case Obj(_) => ObjectSplit(a, b); BracketedSplit(a, b);
      case _ =>
    } else {
      KindsSplit(a, b);
    }
  }

  lemma KindsSplit(a: Json, b: Json)
    requires KindOf(a) != KindOf(b)
    ensures Splits(Text(a), Text(b))
  {
    TextStarts(a);
    TextStarts(b);
    forall x, y ensures Text(a) + x != Text(b) + y {
      assert (Text(a) + x)[0] == Text(a)[0] && (Text(b) + y)[0] == Text(b)[0];
    }
  }

  lemma BracketedSplit(a: Json, b: Json)
    requires (a.Arr? && b.Arr?) || (a.Obj? && b.Obj?)
    requires forall t, u :: t in Parts(a) && u in Parts(b) ==> Splits(t, u)
    ensures Splits(Text(a), Text(b))
    ensures Text(a) == Text(b) ==> Parts(a) == Parts(b)
  {
    PartsOpen(a);
    PartsOpen(b);
    forall x, y | Text(a) + x == Text(b) + y ensures Text(a) == Text(b) && Parts(a) == Parts(b) {
      AfterBracket(a, x);
      AfterBracket(b, y);
      JoinSplits(Parts(a), Parts(b), Closer(a), x, y);
      TextUnfolds(a);
      TextUnfolds(b);
    }
    assert Text(a) + "" == Text(a) && Text(b) + "" == Text(b);
  }

  lemma {:induction false} ItemsSplit(a: Json, b: Json)
    requires a.Arr? && b.Arr?
    ensures forall t, u :: t in Parts(a) && u in Parts(b) ==> Splits(t, u)
    decreases a, 0
  {
    forall t, u | t in Parts(a) && u in Parts(b) ensures Splits(t, u) {
      var i := IndexIn(Texts(a.items), t);
      var j := IndexIn(Texts(b.items), u);
      TextSplits(a.items[i], b.items[j]);
    }
  }

  lemma {:induction false} ObjectSplit(a: Json, b: Json)
    requires a.Obj? && b.Obj?
    ensures forall t, u :: t in Parts(a) && u in Parts(b) ==> Splits(t, u)
    decreases a, 0
  {
    var fs, gs := Sort(KeyBefore, Printed(a.fields)), Sort(KeyBefore, Printed(b.fields));
    forall t, u | t in FieldTexts(fs) && u in FieldTexts(gs) ensures Splits(t, u) {
      var i := IndexIn(FieldTexts(fs), t);
      var j := IndexIn(FieldTexts(gs), u);
      assert fs[i] in fs && gs[j] in gs;
      var k := SortedField(a.fields, fs[i]);
      var l := SortedField(b.fields, gs[j]);
      TextSplits(a.fields[k].1, b.fields[l].1);
      FieldsSplit(fs[i], gs[j]);
    }
  }

  // ---- the theorem -------------------------------------------------------------------------------

  lemma FieldTextInjective(f: (string, string), g: (string, string))
    requires FieldText(f) == FieldText(g)
    ensures f == g
  {
    assert FieldText(f) == Quote(f.0) + (":" + f.1) && FieldText(g) == Quote(g.0) + (":" + g.1);
    QuoteSplits(f.0, ":" + f.1, g.0, ":" + g.1);
    assert (":" + f.1)[1..] == f.1 && (":" + g.1)[1..] == g.1;
  }

  lemma FieldTextsInjective(fs: seq<(string, string)>, gs: seq<(string, string)>)
    requires FieldTexts(fs) == FieldTexts(gs)
    ensures fs == gs
  {
    assert |fs| == |FieldTexts(fs)| && |gs| == |FieldTexts(gs)|;
    forall i | 0 <= i < |fs| ensures fs[i] == gs[i] {
      assert FieldTexts(fs)[i] == FieldTexts(gs)[i];
      FieldTextInjective(fs[i], gs[i]);
    }
  }

  lemma KeyOrder()
    ensures TotalPreorder(KeyBefore)
  {
    forall x: (string, string), y: (string, string) ensures KeyBefore(x, y) || KeyBefore(y, x) {
      TextOrder(x.0, y.0, "");
    }
    forall x: (string, string), y: (string, string), z: (string, string) | KeyBefore(x, y) && KeyBefore(y, z)
      ensures KeyBefore(x, z)
    {
      TextOrder(x.0, y.0, z.0);
    }
  }

  ghost predicate DistinctKeys(fields: seq<(string, Json)>) {
    forall i, j :: 0 <= i < j < |fields| ==> fields[i].0 != fields[j].0
  }

  /** Dictionaries with the same printed fields, in whatever order, sort alike. */
  lemma SortedAlike(fs: seq<(string, Json)>, gs: seq<(string, Json)>)
    requires DistinctKeys(fs) && DistinctKeys(gs)
    requires forall f :: f in Printed(fs) <==> f in Printed(gs)
    ensures Sort(KeyBefore, Printed(fs)) == Sort(KeyBefore, Printed(gs))
  {
    var ps, qs := Printed(fs), Printed(gs);
    KeyOrder();
    SortSorted(KeyBefore, ps);
    SortSorted(KeyBefore, qs);
    SortMembers(KeyBefore, ps);
    SortMembers(KeyBefore, qs);
    SortKeepsNoDup(KeyBefore, ps);
    SortKeepsNoDup(KeyBefore, qs);
    forall x, y | x in ps && y in ps && KeyBefore(x, y) && KeyBefore(y, x) ensures x == y {
      TextOrder(x.0, y.0, "");
      var i := IndexIn(ps, x);
      var j := IndexIn(ps, y);
    }
    SortedUnique(KeyBefore, Sort(KeyBefore, ps), Sort(KeyBefore, qs));
  }

  /** Every field of `fs` has a partner in `gs` that prints alike. */
  ghost predicate Matched(fs: seq<(string, Json)>, gs: seq<(string, Json)>) {
    forall i :: 0 <= i < |fs| ==> (fs[i].0, Text(fs[i].1)) in Printed(gs)
  }

  /** With distinct keys and equal numbers of fields, one-sided matching is two-sided. */
  lemma MatchedBothWays(fs: seq<(string, Json)>, gs: seq<(string, Json)>)
    requires DistinctKeys(fs) && DistinctKeys(gs) && |fs| == |gs| && Matched(fs, gs)
    ensures forall f :: f in Printed(fs) <==> f in Printed(gs)
  {
    var ps, qs := Printed(fs), Printed(gs);
    var left, right := (set f | f in ps), (set f | f in qs);
    assert left <= right by {
      forall f | f in ps ensures f in qs { var i := IndexIn(ps, f); }
    }
    DistinctSize(ps);
    DistinctSize(qs);
    SubsetSameSize(left, right);
    assert forall f :: f in ps <==> f in left;
    assert forall f :: f in qs <==> f in right;
  }

  lemma {:induction false} DistinctSize<T(!new)>(s: seq<T>)
    requires NoDup(s)
    ensures |(set x | x in s)| == |s|
  {
    if s != [] {
      DistinctSize(s[1..]);
      assert (set x | x in s) == {s[0]} + (set x | x in s[1..]);
      assert s[0] !in s[1..];
    }
  }

  lemma SubsetSameSize<T(!new)>(a: set<T>, b: set<T>)
    requires a <= b && |a| == |b|
    ensures a == b
  {
    assert |b - a| == 0;
  }

  lemma {:induction false} AlikeTexts(a: Json, b: Json)
    requires WellFormed(a) && WellFormed(b) && Alike(AsPrinted, a, b)
    ensures Text(a) == Text(b)
    decreases a
  {
    if IsNumber(a) {
      NumberTextOf(a);
      NumberTextOf(b);
      NumberTextIff(Number(a).0, Number(a).1, Number(b).0, Number(b).1);
    } else if a.Arr? {
      TextUnfolds(a);
      TextUnfolds(b);
      forall i | 0 <= i < |a.items| ensures Text(a.items[i]) == Text(b.items[i]) {
        AlikeTexts(a.items[i], b.items[i]);
      }
      assert Texts(a.items) == Texts(b.items);
    } else if a.Obj? {
      TextUnfolds(a);
      TextUnfolds(b);
      forall i | 0 <= i < |a.fields| ensures (a.fields[i].0, Text(a.fields[i].1)) in Printed(b.fields) {
        assert HasField(AsPrinted, a.fields[i], b.fields);
        var j :| 0 <= j < |b.fields| && a.fields[i].0 == b.fields[j].0
                 && Alike(AsPrinted, a.fields[i].1, b.fields[j].1);
        AlikeTexts(a.fields[i].1, b.fields[j].1);
        assert Printed(b.fields)[j] == (a.fields[i].0, Text(a.fields[i].1));
      }
      MatchedBothWays(a.fields, b.fields);
      SortedAlike(a.fields, b.fields);
    }
  }

  lemma {:induction false} TextsAlike(a: Json, b: Json)
    requires WellFormed(a) && WellFormed(b) && Text(a) == Text(b)
    ensures Alike(AsPrinted, a, b)
    decreases a
  {
    TextStarts(a);
    TextStarts(b);
    match a
    case Int(_) => NumbersPrintAlike(a, b);
    case Dec(_, _, _) => NumbersPrintAlike(a, b);
    case Str(s) =>
      assert Text(a) + "" == Text(a) && Text(b) + "" == Text(b);
      QuoteSplits(s, "", b.s, "");
    case Arr(items) =>
      ItemsSplit(a, b);
      BracketedSplit(a, b);
      SameLength(a.items, b.items);
      forall i | 0 <= i < |items| ensures Alike(AsPrinted, items[i], b.items[i]) {
        assert Texts(items)[i] == Texts(b.items)[i];
        TextsAlike(items[i], b.items[i]);
      }
    case Obj(fields) =>
      ObjectSplit(a, b);
      BracketedSplit(a, b);
      FieldTextsInjective(Sort(KeyBefore, Printed(fields)), Sort(KeyBefore, Printed(b.fields)));
      SameFieldCount(fields, b.fields);
      forall i | 0 <= i < |fields| ensures HasField(AsPrinted, fields[i], b.fields) {
        var j := FieldPartner(fields, b.fields, i);
        TextsAlike(fields[i].1, b.fields[j].1);
      }
    case _ =>
  }

  lemma NumbersPrintAlike(a: Json, b: Json)
    requires IsNumber(a) && IsNumber(b) && Text(a) == Text(b)
    ensures Alike(AsPrinted, a, b)
  {
    NumberTextOf(a);
    NumberTextOf(b);
    NumberTextIff(Number(a).0, Number(a).1, Number(b).0, Number(b).1);
  }

  lemma SameLength(a: seq<Json>, b: seq<Json>)
    requires Texts(a) == Texts(b)
    ensures |a| == |b|
  {
    assert |Texts(a)| == |a| && |Texts(b)| == |b|;
  }

  lemma SameFieldCount(fs: seq<(string, Json)>, gs: seq<(string, Json)>)
    requires Sort(KeyBefore, Printed(fs)) == Sort(KeyBefore, Printed(gs))
    ensures |fs| == |gs|
  {
    SortMembers(KeyBefore, Printed(fs));
    SortMembers(KeyBefore, Printed(gs));
  }

  lemma FieldPartner(fs: seq<(string, Json)>, gs: seq<(string, Json)>, i: nat) returns (j: nat)
    requires Sort(KeyBefore, Printed(fs)) == Sort(KeyBefore, Printed(gs)) && i < |fs|
    ensures j < |gs| && fs[i].0 == gs[j].0 && Text(fs[i].1) == Text(gs[j].1)
  {
    SortMembers(KeyBefore, Printed(fs));
    assert Printed(fs)[i] in Printed(fs);
    j := SortedField(gs, Printed(fs)[i]);
  }

  /** Exactly which values print to the same text: those that are alike once decimals are rounded. */
  lemma TextIffAlike(a: Json, b: Json)
    requires WellFormed(a) && WellFormed(b)
    ensures Text(a) == Text(b) <==> Alike(AsPrinted, a, b)
  {
    if Alike(AsPrinted, a, b) { AlikeTexts(a, b); }
    if Text(a) == Text(b) { TextsAlike(a, b); }
  }

  // ---- values the printer keeps exactly --------------------------------------------------------

  lemma SignedSame(negative: bool, m: nat, e: int, n: nat, f: int)
    ensures SameNumber(Signed(negative, m), e, Signed(negative, n), f) <==> SameNumber(m, e, n, f)
  {
    SignsAgree(Signed(negative, m), e, Signed(negative, n), f);
    SignsAgree(m, e, n, f);
    var k := if e <= f then e else f;
    assert m == 0 ==> m * Pow10(e - k) == 0;
    ProductSign(m, Pow10(e - k));
    ProductSign(n, Pow10(f - k));
  }

  /** A decimal prints as the number it was read as exactly when it is exact. */
  lemma DecimalExactIff(negative: bool, m: nat, e: int)
    ensures var v := Dec(negative, m, e);
            && (SameNumber(Number(v).0, Number(v).1, NumberOf(AsRead, v).0, NumberOf(AsRead, v).1) <==> Exact(v))
            && (m < Precision ==> Exact(v))
  {
    RoundedExactIff(m, e);
    var (r, x) := Rounded(m, e);
    SignedSame(negative, r, x, m, e);
  }

  lemma ExactNumber(v: Json)
    requires IsNumber(v) && Exact(v)
    ensures SameNumber(Number(v).0, Number(v).1, NumberOf(AsRead, v).0, NumberOf(AsRead, v).1)
  {
    if v.Dec? { DecimalExactIff(v.negative, v.coefficient, v.exponent); }
  }

  lemma ExactNumbersAlike(a: Json, b: Json)
    requires IsNumber(a) && IsNumber(b) && Exact(a) && Exact(b)
    ensures SameNumbers(AsPrinted, a, b) <==> SameNumbers(AsRead, a, b)
  {
    ExactNumber(a);
    ExactNumber(b);
    SameNumberTransfers(Number(a), NumberOf(AsRead, a), Number(b), NumberOf(AsRead, b));
  }

  /** On exact values both readings agree. */
  lemma {:induction false} ExactAlike(r: Reading, to: Reading, a: Json, b: Json)
    requires Exact(a) && Exact(b) && Alike(r, a, b)
    ensures Alike(to, a, b)
    decreases a
  {
    if IsNumber(a) {
      ExactNumbersAlike(a, b);
    } else if a.Arr? {
      forall i | 0 <= i < |a.items| ensures Alike(to, a.items[i], b.items[i]) {
        ExactAlike(r, to, a.items[i], b.items[i]);
      }
    } else if a.Obj? {
      forall i | 0 <= i < |a.fields| ensures HasField(to, a.fields[i], b.fields) {
        assert HasField(r, a.fields[i], b.fields);
        var j :| 0 <= j < |b.fields| && a.fields[i].0 == b.fields[j].0 && Alike(r, a.fields[i].1, b.fields[j].1);
        ExactAlike(r, to, a.fields[i].1, b.fields[j].1);
      }
    }
  }

  /**
    Two exact JSON values print to the same canonical text if and only if they are the same value
    up to object key order and the notation of numbers.
  */
  lemma TextIffSame(a: Json, b: Json)
    requires WellFormed(a) && WellFormed(b)
    ensures Exact(a) && Exact(b) ==> (Text(a) == Text(b) <==> Same(a, b))
  {
    TextIffAlike(a, b);
    if Exact(a) && Exact(b) {
      if Same(a, b) { ExactAlike(AsRead, AsPrinted, a, b); }
      if Alike(AsPrinted, a, b) { ExactAlike(AsPrinted, AsRead, a, b); }
    }
  }

  /** A value with every decimal rounded to the context's precision. */
  function InContext(v: Json): Json
    decreases v
  {
    match v
    case Dec(negative, m, e) => var (r, x) := Rounded(m, e); Dec(negative, r, x)
    case Arr(items) => Arr(seq(|items|, i requires 0 <= i < |items| => InContext(items[i])))
    case Obj(fields) =>
      Obj(seq(|fields|, i requires 0 <= i < |fields| => (fields[i].0, InContext(fields[i].1))))
    case _ => v
  }

  lemma {:induction false} InContextIsExact(v: Json)
    requires WellFormed(v)
    ensures WellFormed(InContext(v)) && Exact(InContext(v))
    decreases v
  {
    match v
    case Dec(_, m, e) => RoundedIsExact(m, e);
    case Arr(items) =>
      forall i | 0 <= i < |items| ensures WellFormed(InContext(items[i])) && Exact(InContext(items[i])) {
        InContextIsExact(items[i]);
      }
    case Obj(fields) =>
      forall i | 0 <= i < |fields| ensures WellFormed(InContext(fields[i].1)) && Exact(InContext(fields[i].1)) {
        InContextIsExact(fields[i].1);
      }
    case _ =>
  }

  lemma RoundedPrintsAlike(v: Json)
    requires v.Dec?
    ensures SameNumbers(AsPrinted, v, InContext(v))
  {
    RoundedIsExact(v.coefficient, v.exponent);
    ExactNumber(InContext(v));
    SameNumberTransfers(Number(InContext(v)), Number(v), Number(v), Number(v));
  }

  /** Rounding first changes nothing of what is printed. */
  lemma {:induction false} InContextPrintsAlike(v: Json)
    ensures Alike(AsPrinted, v, InContext(v))
    decreases v
  {
    match v
    case Dec(_, _, _) => RoundedPrintsAlike(v);
    case Arr(items) =>
      forall i | 0 <= i < |items| ensures Alike(AsPrinted, items[i], InContext(items[i])) {
        InContextPrintsAlike(items[i]);
      }
    case Obj(fields) =>
      forall i | 0 <= i < |fields| ensures HasField(AsPrinted, fields[i], InContext(v).fields) {
        InContextPrintsAlike(fields[i].1);
        assert InContext(v).fields[i] == (fields[i].0, InContext(fields[i].1));
      }
    case _ =>
  }

  /** Rounding changes the value of everything that is not exact. */
  lemma {:induction false} InContextDiffers(v: Json)
    requires WellFormed(v) && Same(v, InContext(v))
    ensures Exact(v)
    decreases v
  {
    match v
    case Dec(negative, m, e) =>
      DecimalExactIff(negative, m, e);
      SameNumberTransfers(NumberOf(AsRead, v), Number(v), Number(v), Number(v));
    case Arr(items) =>
      forall i | 0 <= i < |items| ensures Exact(items[i]) {
        assert InContext(v).items[i] == InContext(items[i]);
        InContextDiffers(items[i]);
      }
    case Obj(fields) =>
      forall i | 0 <= i < |fields| ensures Exact(fields[i].1) {
        assert HasField(AsRead, fields[i], InContext(v).fields);
        var j :| 0 <= j < |fields| && fields[i].0 == InContext(v).fields[j].0
                 && Alike(AsRead, fields[i].1, InContext(v).fields[j].1);
        assert InContext(v).fields[j] == (fields[j].0, InContext(fields[j].1));
        assert i == j;
        InContextDiffers(fields[i].1);
      }
    case _ =>
  }

  /**
    Exactly which values the printer tells apart: a value's text stands for that value alone, among
    values within the decimal context, if and only if the value is itself exact.
  */
  lemma UnambiguousIffExact(v: Json)
    requires WellFormed(v)
    ensures (forall b :: WellFormed(b) && Exact(b) ==> (Text(v) == Text(b) <==> Same(v, b))) <==> Exact(v)
  {
    if Exact(v) {
      forall b | WellFormed(b) && Exact(b) ensures Text(v) == Text(b) <==> Same(v, b) { TextIffSame(v, b); }
    } else {
      InContextIsExact(v);
      InContextPrintsAlike(v);
      TextIffAlike(v, InContext(v));
      if Same(v, InContext(v)) { InContextDiffers(v); }
    }
  }

  /** An instance: 10^28 + 1 prints as 10^28 but is another number. */
  lemma LongDecimalsCollide()
    ensures Text(Dec(false, Precision + 1, 0)) == Text(Dec(false, Precision, 0))
    ensures !Same(Dec(false, Precision + 1, 0), Dec(false, Precision, 0))
  {
    hide NumberText;
    assert Excess(Precision) == 1 && Excess(Precision + 1) == 1;
    assert Pow10(1) == 10 && Pow10(0) == 1;
    assert Rounded(Precision, 0) == Rounded(Precision + 1, 0);
  }
}
