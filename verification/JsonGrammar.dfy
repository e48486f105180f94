/**
  Canonical text is JSON: what the printer makes of a value spells that value by the grammar of
  RFC 8259, without whitespace and with the fields of an object in ascending key order.
*/
module JsonGrammar {
  import opened Sequences
  import opened CanonicalNumber
  import opened CanonicalJson

  /** The parts with a comma between any two of them. */
  function Commas(parts: seq<string>): string {
    if parts == [] then ""
    else if |parts| == 1 then parts[0]
    else Commas(parts[..|parts| - 1]) + "," + parts[|parts| - 1]
  }

  /** A sign, digits and perhaps a point with more digits, for the number m * 10^e. */
  ghost predicate SpellsNumber(t: string, m: int, e: int, whole: string, fraction: string) {
    && whole != "" && All(IsDigit, whole) && All(IsDigit, fraction)
    && t == (if m < 0 then "-" else "") + (if fraction == "" then whole else whole + "." + fraction)
    && SameNumber(Magnitude(m), e, NatOf(whole + fraction), -|fraction|)
  }

  /** A quoted string, read by the escapes of section 7 of RFC 8259. */
  ghost predicate SpellsString(t: string, s: string) {
    t != "" && t[0] == '\"' && ReadString(t[1..]) == Some((s, ""))
  }

  /** `t` is a JSON text of the value, numbers taken as printed. */
  ghost predicate Spells(t: string, v: Json)
    decreases v, 3
  {
    match v
    case Null => t == "null"
    case Bool(b) => t == if b then "true" else "false"
    case Int(n) => exists whole, fraction :: SpellsNumber(t, n, 0, whole, fraction)
    case Dec(_, _, _) =>
      exists whole, fraction :: SpellsNumber(t, NumberOf(AsPrinted, v).0, NumberOf(AsPrinted, v).1, whole, fraction)
    case Str(s) => SpellsString(t, s)
    case Arr(items) => exists parts: seq<string> :: SpellsItems(t, v, parts)
    case Obj(fields) => exists keys: seq<string>, parts: seq<string> :: SpellsFields(t, v, keys, parts)
  }

  /** The items in brackets, in order. */
  ghost predicate SpellsItems(t: string, v: Json, parts: seq<string>)
    requires v.Arr?
    decreases v, 2
  {
    && |parts| == |v.items| && t == "[" + Commas(parts) + "]"
    && forall i :: 0 <= i < |parts| ==> Spells(parts[i], v.items[i])
  }

  /** The fields in braces, one for each key, keys ascending. */
  ghost predicate SpellsFields(t: string, v: Json, keys: seq<string>, parts: seq<string>)
    requires v.Obj?
    decreases v, 2
  {
    && |keys| == |parts| == |v.fields| && t == "{" + Commas(parts) + "}"
    && (forall i, j :: 0 <= i < j < |keys| ==> TextBefore(keys[i], keys[j]) && keys[i] != keys[j])
    && forall i :: 0 <= i < |parts| ==> SpellsSome(parts[i], keys[i], v)
  }

  /** The part is the field of the object that has this key. */
  ghost predicate SpellsSome(part: string, key: string, v: Json)
    requires v.Obj?
    decreases v, 1
  {
    exists j, name: string, text: string ::
      0 <= j < |v.fields| && SpellsField(part, key, v, j, name, text)
  }

  ghost predicate SpellsField(part: string, key: string, v: Json, j: nat, name: string, text: string)
    requires v.Obj? && j < |v.fields|
    decreases v, 0
  {
    part == name + ":" + text && v.fields[j].0 == key && SpellsString(name, key) && Spells(text, v.fields[j].1)
  }

  lemma {:induction false} CommasCons(x: string, parts: seq<string>)
    requires parts != []
    ensures Commas([x] + parts) == x + "," + Commas(parts)
  {
    var all := [x] + parts;
    var n := |parts| - 1;
    assert all[..|all| - 1] == [x] + parts[..n];
    if n == 0 {
      assert Commas(all[..1]) == x;
    } else {
      CommasCons(x, parts[..n]);
      assert x + "," + Commas(parts[..n]) + "," + parts[n] == x + "," + (Commas(parts[..n]) + "," + parts[n]);
    }
  }

  lemma {:induction false} JoinIsCommas(parts: seq<string>)
    ensures Join(parts) == Commas(parts)
  {
    if |parts| > 1 {
      JoinIsCommas(parts[1..]);
      assert parts == [parts[0]] + parts[1..];
      CommasCons(parts[0], parts[1..]);
    }
  }

  lemma QuoteSpells(s: string)
    ensures SpellsString(Quote(s), s)
  {
    StringReadsBack(s, "");
    assert Quote(s)[1..] == Rest(s, "");
  }

  lemma NumberSpells(m: int, e: int)
    ensures exists whole, fraction :: SpellsNumber(NumberText(m, e), m, e, whole, fraction)
  {
    hide SameNumber, NumberText, NatOf;
    var whole, fraction := NumberTextDenotes(m, e);
    assert SpellsNumber(NumberText(m, e), m, e, whole, fraction);
  }

  lemma PrintedBeforeIsPreorder()
    ensures TotalPreorder(KeyBefore)
  {
    forall x: (string, string), y: (string, string) ensures KeyBefore(x, y) || KeyBefore(y, x) {
      TextOrder(x.0, y.0, "");
    }
    forall x: (string, string), y: (string, string), z: (string, string) | KeyBefore(x, y) && KeyBefore(y, z)
      ensures KeyBefore(x, z)
    {
      TextOrder(x.0, y.0, z.0);
    }
  }

  /** The printed fields in key order: as many as there are, keys strictly ascending. */
  lemma SortedFields(fields: seq<(string, Json)>)
    requires forall i, j :: 0 <= i < j < |fields| ==> fields[i].0 != fields[j].0
    ensures var fs := Sort(KeyBefore, Printed(fields));
            && |fs| == |fields|
            && (forall i, j :: 0 <= i < j < |fs| ==> TextBefore(fs[i].0, fs[j].0) && fs[i].0 != fs[j].0)
  {
    var ps := Printed(fields);
    var fs := Sort(KeyBefore, ps);
    PrintedBeforeIsPreorder();
    SortSorted(KeyBefore, ps);
    SortPermutes(KeyBefore, ps);
    assert |fs| == |multiset(fs)| == |multiset(ps)| == |ps|;
    SortKeepsNoDup(KeyBefore, ps);
    SortMembers(KeyBefore, ps);
    forall i, j | 0 <= i < j < |fs| ensures fs[i].0 != fs[j].0 {
      assert fs[i] in fs && fs[j] in fs;
      var a := IndexIn(ps, fs[i]);
      var b := IndexIn(ps, fs[j]);
    }
  }

  lemma {:induction false} TextSpells(v: Json)
    requires WellFormed(v)
    ensures Spells(Text(v), v)
    decreases v
  {
    match v
    case Int(n) =>
      IntegerIsNumber(n);
      NumberSpells(n, 0);
    case Dec(_, _, _) => NumberSpells(Number(v).0, Number(v).1);
    case Str(s) => QuoteSpells(s);
    case Arr(items) =>
      forall i | 0 <= i < |items| ensures Spells(Text(items[i]), items[i]) { TextSpells(items[i]); }
      ArraySpells(v);
    case Obj(fields) =>
      forall i | 0 <= i < |fields| ensures Spells(Text(fields[i].1), fields[i].1) { TextSpells(fields[i].1); }
      ObjectSpells(v);
    case _ =>
  }

  lemma ArraySpells(v: Json)
    requires v.Arr? && forall i :: 0 <= i < |v.items| ==> Spells(Text(v.items[i]), v.items[i])
    ensures Spells(Text(v), v)
  {
    TextUnfolds(v);
    JoinIsCommas(Texts(v.items));
    assert SpellsItems(Text(v), v, Texts(v.items));
  }

  lemma FieldSpells(v: Json, f: (string, string))
    requires v.Obj? && f in Printed(v.fields)
    requires forall i :: 0 <= i < |v.fields| ==> Spells(Text(v.fields[i].1), v.fields[i].1)
    ensures SpellsSome(FieldText(f), f.0, v)
  {
    hide Spells, SpellsString;
    var j := IndexIn(Printed(v.fields), f);
    QuoteSpells(f.0);
    assert SpellsField(FieldText(f), f.0, v, j, Quote(f.0), f.1);
  }

  lemma ObjectSpells(v: Json)
    requires v.Obj? && WellFormed(v) && forall i :: 0 <= i < |v.fields| ==> Spells(Text(v.fields[i].1), v.fields[i].1)
    ensures Spells(Text(v), v)
  {
    hide SpellsSome, Sort, TextBefore;
    var fs := Sort(KeyBefore, Printed(v.fields));
    var keys, parts := seq(|fs|, i requires 0 <= i < |fs| => fs[i].0), FieldTexts(fs);
    TextUnfolds(v);
    JoinIsCommas(parts);
    SortedFields(v.fields);
    SortMembers(KeyBefore, Printed(v.fields));
    forall i | 0 <= i < |parts| ensures SpellsSome(parts[i], keys[i], v) {
      assert fs[i] in fs;
      FieldSpells(v, fs[i]);
    }
    assert SpellsFields(Text(v), v, keys, parts);
  }
}
