/** The JSON subset the certificates are printed in, and that printing loses nothing. */
module Json {
  import opened Base
  import opened Identity
  import Protocol

  datatype Json =
    | Text(text: string)
    | Number(number: nat)
    | Truth(truth: bool)
    | List(items: seq<Json>)
    | Object(fields: seq<Field>)

  datatype Field = Field(key: string, value: Json)

  /** The strings `quote` accepts. */
  predicate Quotable(s: string) {
    forall i :: 0 <= i < |s| ==> 0x20 <= s[i] as int <= 0x7e && s[i] != '"' && s[i] != '\\'
  }

  predicate Printable(j: Json)
    decreases j, 1
  {
    match j
    case Text(s) => Quotable(s)
    case Number(_) => true
    case Truth(_) => true
    case List(items) => PrintableItems(items)
    case Object(fields) => PrintableFields(fields)
  }

  predicate PrintableItems(items: seq<Json>)
    decreases items, 0
  {
    items == [] || (Printable(items[0]) && PrintableItems(items[1..]))
  }

  predicate PrintableFields(fields: seq<Field>)
    decreases fields, 0
  {
    fields == [] || (Quotable(fields[0].key) && Printable(fields[0].value) && PrintableFields(fields[1..]))
  }

  /** `std::to_string` on a signed value. */
  function SignedText(n: int): string { if n < 0 then ['-'] + Protocol.Decimal(-n) else Protocol.Decimal(n) }

  lemma SignedTextInjective(m: int, n: int)
    requires SignedText(m) == SignedText(n)
    ensures m == n
  {
    Protocol.DecimalValueOfDecimal(if m < 0 then -m else m);
    Protocol.DecimalValueOfDecimal(if n < 0 then -n else n);
    assert m < 0 ==> SignedText(m)[1..] == Protocol.Decimal(-m);
    assert n < 0 ==> SignedText(n)[1..] == Protocol.Decimal(-n);
    assert SignedText(m)[0] == '-' <==> m < 0;
    assert SignedText(n)[0] == '-' <==> n < 0;
  }

  // ----- printing ----------------------------------------------------------

  /** The text of a value, followed by `rest`. */
  function Print(j: Json, rest: string): string
    decreases j, 1
  {
    match j
    case Text(s) => Quote(s, rest)
    case Number(n) => Protocol.Decimal(n) + rest
    case Truth(b) => (if b then "true" else "false") + rest
    case List(items) => ['['] + PrintItems(items, true, [']'] + rest)
    case Object(fields) => ['{'] + PrintFields(fields, true, ['}'] + rest)
  }

  function Quote(s: string, rest: string): string { ['"'] + (s + (['"'] + rest)) }

  function Comma(first: bool, rest: string): string { if first then rest else [','] + rest }

  function PrintItems(items: seq<Json>, first: bool, rest: string): string
    decreases items, 0
  {
    if items == [] then rest else Comma(first, Print(items[0], PrintItems(items[1..], false, rest)))
  }

  function PrintFields(fields: seq<Field>, first: bool, rest: string): string
    decreases fields, 0
  {
    if fields == [] then rest
    else Comma(first, Quote(fields[0].key, [':'] + Print(fields[0].value, PrintFields(fields[1..], false, rest))))
  }

  function Document(j: Json): Bytes { Ascii(Print(j, "")) }

  // ----- a printed value ends where it ends ---------------------------------

  lemma Cut(c: char, x: string, y: string)
    requires [c] + x == [c] + y
    ensures x == y
  {
    assert ([c] + x)[1..] == x && ([c] + y)[1..] == y;
  }

  lemma CutPrefix(p: string, x: string, y: string)
    requires p + x == p + y
    ensures x == y
  {
    assert (p + x)[|p|..] == x && (p + y)[|p|..] == y;
  }

  /** A string ends at the first separator. */
  lemma {:induction false} TextEnds(c: char, a: string, x: string, b: string, y: string)
    requires Free(a, c) && Free(b, c) && a + ([c] + x) == b + ([c] + y)
    ensures a == b && x == y
  {
    var s, t := a + ([c] + x), b + ([c] + y);
    if a == "" || b == "" {
      assert s[0] == t[0];
      assert a == b == "";
      assert s == [c] + x && t == [c] + y;
      Cut(c, x, y);
    } else {
      assert s[0] == a[0] && t[0] == b[0];
      assert s[1..] == a[1..] + ([c] + x) && t[1..] == b[1..] + ([c] + y);
      TextEnds(c, a[1..], x, b[1..], y);
      assert a == [a[0]] + a[1..] && b == [b[0]] + b[1..];
    }
  }

  predicate NoDigit(x: string) { x == "" || !Protocol.IsDigit(x[0]) }

  /** A number ends at the first character that is no digit. */
  lemma {:induction false} DigitsEnd(a: string, x: string, b: string, y: string)
    requires Protocol.AllDigits(a) && Protocol.AllDigits(b) && NoDigit(x) && NoDigit(y) && a + x == b + y
    ensures a == b && x == y
  {
    if a == "" || b == "" {
      assert a == "" ==> a + x == x;
      assert b == "" ==> b + y == y;
    } else {
      assert (a + x)[0] == a[0] && (b + y)[0] == b[0];
      assert (a + x)[1..] == a[1..] + x && (b + y)[1..] == b[1..] + y;
      DigitsEnd(a[1..], x, b[1..], y);
      assert a == [a[0]] + a[1..] && b == [b[0]] + b[1..];
    }
  }

  lemma NumberEnds(m: nat, x: string, n: nat, y: string)
    requires NoDigit(x) && NoDigit(y) && Protocol.Decimal(m) + x == Protocol.Decimal(n) + y
    ensures m == n && x == y
  {
    DigitsEnd(Protocol.Decimal(m), x, Protocol.Decimal(n), y);
    Protocol.DecimalValueOfDecimal(m);
    Protocol.DecimalValueOfDecimal(n);
  }

  lemma QuoteEnds(a: string, x: string, b: string, y: string)
    requires Quotable(a) && Quotable(b) && Quote(a, x) == Quote(b, y)
    ensures a == b && x == y
  {
    Cut('"', a + (['"'] + x), b + (['"'] + y));
    TextEnds('"', a, x, b, y);
  }

  /** The first character tells the kind of value. */
  function Opening(j: Json): set<char> {
    match j
    case Text(_) => {'"'}
    case Number(_) => {'0', '1', '2', '3', '4', '5', '6', '7', '8', '9'}
    case Truth(b) => if b then {'t'} else {'f'}
    case List(_) => {'['}
    case Object(_) => {'{'}
  }

  lemma OpensWith(j: Json, rest: string)
    ensures Print(j, rest) != "" && Print(j, rest)[0] in Opening(j)
  {
    hide PrintItems, PrintFields;
    match j
    case Number(n) =>
      var d := Protocol.Decimal(n);
      assert (d + rest)[0] == d[0];
    case _ =>
  }

  lemma ItemsOpen(items: seq<Json>, first: bool, rest: string)
    requires items != []
    ensures var s := PrintItems(items, first, rest); s != "" && s[0] !in {']', '}'} && (!first ==> s[0] == ',')
  {
    hide Print;
    OpensWith(items[0], PrintItems(items[1..], false, rest));
  }

  lemma FieldsOpen(fields: seq<Field>, first: bool, rest: string)
    requires fields != []
    ensures var s := PrintFields(fields, first, rest); s != "" && s[0] !in {']', '}'} && (!first ==> s[0] == ',')
  {
    hide Print;
  }

  lemma ItemsEndNumbers(items: seq<Json>, rest: string)
    requires NoDigit(rest)
    ensures NoDigit(PrintItems(items, false, rest))
  {
    hide Print;
  }

  lemma FieldsEndNumbers(fields: seq<Field>, rest: string)
    requires NoDigit(rest)
    ensures NoDigit(PrintFields(fields, false, rest))
  {
    hide Print;
  }

  lemma CommaCut(first: bool, x: string, y: string)
    requires Comma(first, x) == Comma(first, y)
    ensures x == y
  {
    if !first { Cut(',', x, y); }
  }

  /** Equal texts, whatever follows, were printed from equal values. */
  lemma {:induction false} PrintEnds(a: Json, x: string, b: Json, y: string)
    requires Printable(a) && Printable(b) && NoDigit(x) && NoDigit(y) && Print(a, x) == Print(b, y)
    ensures a == b && x == y
    decreases a, 1
  {
    hide PrintItems, PrintFields, Quotable, PrintableItems, PrintableFields, NoDigit;
    OpensWith(a, x);
    OpensWith(b, y);
    match (a, b)
    case (Text(s), Text(t)) => QuoteEnds(s, x, t, y);
    case (Number(m), Number(n)) => NumberEnds(m, x, n, y);
    case (Truth(s), Truth(t)) => CutPrefix(if s then "true" else "false", x, y);
    case (List(s), List(t)) =>
      Cut('[', PrintItems(s, true, [']'] + x), PrintItems(t, true, [']'] + y));
      ItemsEnd(s, t, true, x, y);
    case (Object(s), Object(t)) =>
      Cut('{', PrintFields(s, true, ['}'] + x), PrintFields(t, true, ['}'] + y));
      FieldsEnd(s, t, true, x, y);
    case _ =>
  }

  lemma {:induction false} ItemsEnd(a: seq<Json>, b: seq<Json>, first: bool, x: string, y: string)
    requires PrintableItems(a) && PrintableItems(b)
    requires PrintItems(a, first, [']'] + x) == PrintItems(b, first, [']'] + y)
    ensures a == b && x == y
    decreases a, 0
  {
    hide Print, Printable;
    if a == [] || b == [] {
      if a != [] { ItemsOpen(a, first, [']'] + x); }
      if b != [] { ItemsOpen(b, first, [']'] + y); }
      Cut(']', x, y);
    } else {
      var u, v := PrintItems(a[1..], false, [']'] + x), PrintItems(b[1..], false, [']'] + y);
      CommaCut(first, Print(a[0], u), Print(b[0], v));
      ItemsEndNumbers(a[1..], [']'] + x);
      ItemsEndNumbers(b[1..], [']'] + y);
      PrintEnds(a[0], u, b[0], v);
      ItemsEnd(a[1..], b[1..], false, x, y);
      assert a == [a[0]] + a[1..] && b == [b[0]] + b[1..];
    }
  }

  lemma {:induction false} FieldsEnd(a: seq<Field>, b: seq<Field>, first: bool, x: string, y: string)
    requires PrintableFields(a) && PrintableFields(b)
    requires PrintFields(a, first, ['}'] + x) == PrintFields(b, first, ['}'] + y)
    ensures a == b && x == y
    decreases a, 0
  {
    hide Print, Printable, Quotable, Quote;
    if a == [] || b == [] {
      if a != [] { FieldsOpen(a, first, ['}'] + x); }
      if b != [] { FieldsOpen(b, first, ['}'] + y); }
      Cut('}', x, y);
    } else {
      var u, v := PrintFields(a[1..], false, ['}'] + x), PrintFields(b[1..], false, ['}'] + y);
      var p, q := [':'] + Print(a[0].value, u), [':'] + Print(b[0].value, v);
      CommaCut(first, Quote(a[0].key, p), Quote(b[0].key, q));
      QuoteEnds(a[0].key, p, b[0].key, q);
      Cut(':', Print(a[0].value, u), Print(b[0].value, v));
      FieldsEndNumbers(a[1..], ['}'] + x);
      FieldsEndNumbers(b[1..], ['}'] + y);
      PrintEnds(a[0].value, u, b[0].value, v);
      FieldsEnd(a[1..], b[1..], false, x, y);
      assert a == [a[0]] + a[1..] && b == [b[0]] + b[1..];
    }
  }

  // ----- documents ---------------------------------------------------------

  predicate Narrow(s: string) { forall i :: 0 <= i < |s| ==> s[i] as int < 256 }

  lemma QuoteIsNarrow(s: string, rest: string)
    requires Quotable(s) && Narrow(rest)
    ensures Narrow(Quote(s, rest))
  {
  }

  lemma DecimalIsNarrow(n: nat, rest: string)
    requires Narrow(rest)
    ensures Narrow(Protocol.Decimal(n) + rest)
  {
    var d := Protocol.Decimal(n);
    assert forall i :: 0 <= i < |d| ==> Protocol.IsDigit(d[i]);
  }

  lemma {:induction false} PrintIsNarrow(j: Json, rest: string)
    requires Printable(j) && Narrow(rest)
    ensures Narrow(Print(j, rest))
    decreases j, 1
  {
    hide PrintItems, PrintFields;
    match j
    case Text(s) => QuoteIsNarrow(s, rest);
    case Number(n) => DecimalIsNarrow(n, rest);
    case Truth(_) =>
    case List(items) => ItemsAreNarrow(items, true, [']'] + rest);
    case Object(fields) => FieldsAreNarrow(fields, true, ['}'] + rest);
  }

  lemma {:induction false} ItemsAreNarrow(items: seq<Json>, first: bool, rest: string)
    requires PrintableItems(items) && Narrow(rest)
    ensures Narrow(PrintItems(items, first, rest))
    decreases items, 0
  {
    hide Print, Printable;
    if items != [] {
      ItemsAreNarrow(items[1..], false, rest);
      PrintIsNarrow(items[0], PrintItems(items[1..], false, rest));
    }
  }

  lemma {:induction false} FieldsAreNarrow(fields: seq<Field>, first: bool, rest: string)
    requires PrintableFields(fields) && Narrow(rest)
    ensures Narrow(PrintFields(fields, first, rest))
    decreases fields, 0
  {
    hide Print, Printable, Quote;
    if fields != [] {
      FieldsAreNarrow(fields[1..], false, rest);
      var u := PrintFields(fields[1..], false, rest);
      PrintIsNarrow(fields[0].value, u);
      QuoteIsNarrow(fields[0].key, [':'] + Print(fields[0].value, u));
    }
  }

  /** Equal documents print equal values. */
  lemma DocumentInjective(a: Json, b: Json)
    requires Printable(a) && Printable(b) && Document(a) == Document(b)
    ensures a == b
  {
    hide Print, Printable;
    PrintIsNarrow(a, "");
    PrintIsNarrow(b, "");
    AsciiInjective(Print(a, ""), Print(b, ""));
    PrintEnds(a, "", b, "");
  }

  // ----- lengths and members -------------------------------------------------

  function Length(j: Json): nat
    decreases j, 1
  {
    match j
    case Text(s) => |s| + 2
    case Number(n) => |Protocol.Decimal(n)|
    case Truth(b) => if b then 4 else 5
    case List(items) => if items == [] then 2 else 1 + ItemsLength(items)
    case Object(fields) => if fields == [] then 2 else 1 + FieldsLength(fields)
  }

  /** Each item with the comma or bracket behind it. */
  function ItemsLength(items: seq<Json>): nat
    decreases items, 0
  {
    if items == [] then 0 else Length(items[0]) + 1 + ItemsLength(items[1..])
  }

  function FieldsLength(fields: seq<Field>): nat
    decreases fields, 0
  {
    if fields == [] then 0 else FieldLength(fields[0]) + FieldsLength(fields[1..])
  }

  /** Key, quotes, colon, value and what is behind it. */
  function FieldLength(f: Field): nat
    decreases f, 1
  {
    |f.key| + 4 + Length(f.value)
  }

  lemma {:induction false} PrintLength(j: Json, rest: string)
    ensures |Print(j, rest)| == Length(j) + |rest|
    decreases j, 1
  {
    hide PrintItems, PrintFields, ItemsLength, FieldsLength, Protocol.Decimal;
    match j
    case List(items) =>
      PrintItemsLength(items, true, [']'] + rest);
      NoItems();
    case Object(fields) =>
      PrintFieldsLength(fields, true, ['}'] + rest);
      NoItems();
    case _ =>
  }

  lemma NoItems()
    ensures ItemsLength([]) == FieldsLength([]) == 0
  {
  }

  lemma {:induction false} PrintItemsLength(items: seq<Json>, first: bool, rest: string)
    ensures |PrintItems(items, first, rest)| == ItemsLength(items) + |rest| - if first && items != [] then 1 else 0
    decreases items, 0
  {
    hide Print, Length;
    if items != [] {
      PrintItemsLength(items[1..], false, rest);
      PrintLength(items[0], PrintItems(items[1..], false, rest));
    }
  }

  lemma {:induction false} PrintFieldsLength(fields: seq<Field>, first: bool, rest: string)
    ensures |PrintFields(fields, first, rest)| == FieldsLength(fields) + |rest| - if first && fields != [] then 1 else 0
    decreases fields, 0
  {
    hide Print, Length;
    if fields != [] {
      PrintFieldsLength(fields[1..], false, rest);
      PrintLength(fields[0].value, PrintFields(fields[1..], false, rest));
    }
  }

  lemma DocumentLength(j: Json)
    ensures |Document(j)| == Length(j)
  {
    hide Print, Length;
    PrintLength(j, "");
  }

  lemma FieldsLengthAt(fields: seq<Field>, i: nat)
    requires i < |fields|
    ensures FieldsLength(fields[i..]) == FieldLength(fields[i]) + FieldsLength(fields[i + 1..])
  {
    hide FieldLength;
    assert fields[i..][1..] == fields[i + 1..] && fields[i..][0] == fields[i];
  }

  lemma {:induction false} PrintableFieldsMeans(fields: seq<Field>)
    ensures PrintableFields(fields) <==> forall i :: 0 <= i < |fields| ==> Quotable(fields[i].key) && Printable(fields[i].value)
  {
    hide Quotable, Printable;
    if fields != [] {
      PrintableFieldsMeans(fields[1..]);
      assert forall i :: 0 < i < |fields| ==> fields[i] == fields[1..][i - 1];
    }
  }

  lemma {:induction false} PrintableItemsMeans(items: seq<Json>)
    ensures PrintableItems(items) <==> forall i :: 0 <= i < |items| ==> Printable(items[i])
  {
    hide Printable;
    if items != [] {
      PrintableItemsMeans(items[1..]);
      assert forall i :: 0 < i < |items| ==> items[i] == items[1..][i - 1];
    }
  }
}
