/** Cron schedules as text: tokens of at most seven characters, and what a field matches. */
module CronFields {
  import opened Sequences
  import opened Text
  import opened Wrappers

  predicate IsDigit(c: char) {
    '0' <= c <= '9'
  }

  function DigitValue(c: char): nat
    requires IsDigit(c)
  {
    c as int - '0' as int
  }

  // ----- numbers

  function LeadingDigits(s: string): (n: nat)
    ensures n <= |s|
    ensures forall i | 0 <= i < n :: IsDigit(s[i])
    ensures n < |s| ==> !IsDigit(s[n])
  {
    if s == [] || !IsDigit(s[0]) then 0 else 1 + LeadingDigits(s[1..])
  }

  function Value(digits: string): nat
    requires forall i | 0 <= i < |digits| :: IsDigit(digits[i])
  {
    if digits == [] then 0
    else 10 * Value(digits[..|digits| - 1]) + DigitValue(digits[|digits| - 1])
  }

  /** The C `atoi`: optional space and sign, then digits up to the first other character. */
  function Atoi(s: string): int {
    var t := SkipSpace(s);
    if t != [] && t[0] == '-' then -(Value(t[1..][..LeadingDigits(t[1..])]) as int)
    else if t != [] && t[0] == '+' then Value(t[1..][..LeadingDigits(t[1..])])
    else Value(t[..LeadingDigits(t)])
  }

  function Show(n: nat): (s: string)
    ensures s != [] && forall i | 0 <= i < |s| :: IsDigit(s[i])
  {
    var d := ('0' as int + n % 10) as char;
    if n < 10 then [d] else Show(n / 10) + [d]
  }

  lemma {:induction false} ValueOfShow(n: nat)
    ensures Value(Show(n)) == n
  {
    if n < 10 {
      assert Show(n)[..0] == [];
    } else {
      ValueOfShow(n / 10);
      assert Show(n)[..|Show(n)| - 1] == Show(n / 10);
    }
  }

  lemma {:induction false} LeadingDigitsOf(digits: string, rest: string)
    requires forall i | 0 <= i < |digits| :: IsDigit(digits[i])
    requires rest != [] ==> !IsDigit(rest[0])
    ensures LeadingDigits(digits + rest) == |digits|
  {
    if digits == [] {
      assert digits + rest == rest;
    } else {
      LeadingDigitsOf(digits[1..], rest);
      assert (digits + rest)[1..] == digits[1..] + rest;
    }
  }

  /** Reading a written number back, whatever non-digit follows it. */
  lemma AtoiOfShow(n: nat, rest: string)
    requires rest != [] ==> !IsDigit(rest[0])
    ensures Atoi(Show(n) + rest) == n
  {
    var s := Show(n) + rest;
    assert IsDigit(Show(n)[0]) && s[0] == Show(n)[0];
    LeadingDigitsOf(Show(n), rest);
    assert s[..|Show(n)|] == Show(n);
    ValueOfShow(n);
  }

  // ----- characters and tokens of a field

  function IndexOf(s: string, c: char): (i: nat)
    ensures i <= |s|
    ensures i < |s| ==> s[i] == c
    ensures forall j | 0 <= j < i :: s[j] != c
  {
    if s == [] || s[0] == c then 0 else 1 + IndexOf(s[1..], c)
  }

  /** The nonempty pieces between commas, as `strtok_r` yields them. */
  function Pieces(s: string): seq<string>
    decreases |s|
  {
    if s == [] then []
    else
      var i := IndexOf(s, ',');
      (if i > 0 then [s[..i]] else []) + if i < |s| then Pieces(s[i + 1..]) else []
  }

  predicate AnyEquals(pieces: seq<string>, value: int) {
    pieces != [] && (Atoi(pieces[0]) == value || AnyEquals(pieces[1..], value))
  }

  predicate FieldMatches(value: nat, field: string) {
    if field == "*" then true
    else if "*/" <= field then Atoi(field[2..]) > 0 && value % Atoi(field[2..]) == 0
    else if IndexOf(field, '-') < |field| then
      Atoi(field) <= value <= Atoi(field[IndexOf(field, '-') + 1..])
    else if IndexOf(field, ',') < |field| then AnyEquals(Pieces(field), value)
    else Atoi(field) == value
  }

  method ReadDigits(s: string, from: nat) returns (v: nat)
    requires from <= |s|
    ensures v == Value(s[from..][..LeadingDigits(s[from..])])
  {
    var i := from;
    v := 0;
    while i < |s| && IsDigit(s[i])
      invariant from <= i <= |s|
      invariant forall j | from <= j < i :: IsDigit(s[j])
      invariant v == Value(s[from..i])
    {
      assert s[from..i + 1][..i - from] == s[from..i];
      v := 10 * v + DigitValue(s[i]);
      i := i + 1;
    }
    hide Value;
    LeadingDigitsEnd(s, from, i);
  }

  lemma LeadingDigitsEnd(s: string, from: nat, i: nat)
    requires from <= i <= |s| && (i < |s| ==> !IsDigit(s[i])) && forall j | from <= j < i :: IsDigit(s[j])
    ensures LeadingDigits(s[from..]) == i - from
    ensures s[from..][..i - from] == s[from..i]
  {
    assert s[from..] == s[from..i] + s[i..];
    LeadingDigitsOf(s[from..i], s[i..]);
  }

  lemma AtoiFrom(s: string, i: nat)
    requires i <= |s| && SkipSpace(s) == s[i..]
    ensures i < |s| && s[i] == '-' ==> Atoi(s) == -(Value(s[i + 1..][..LeadingDigits(s[i + 1..])]) as int)
    ensures i < |s| && s[i] == '+' ==> Atoi(s) == Value(s[i + 1..][..LeadingDigits(s[i + 1..])])
    ensures i == |s| || (s[i] != '-' && s[i] != '+') ==> Atoi(s) == Value(s[i..][..LeadingDigits(s[i..])])
  {
    hide Value, LeadingDigits, SkipSpace;
    if i < |s| {
      assert s[i..][1..] == s[i + 1..];
    }
  }

  method SkipSpaces(s: string) returns (i: nat)
    ensures i <= |s| && SkipSpace(s) == s[i..]
  {
    i := 0;
    while i < |s| && IsSpace(s[i])
      invariant i <= |s|
      invariant SkipSpace(s) == SkipSpace(s[i..])
    {
      assert s[i..][1..] == s[i + 1..];
      i := i + 1;
    }
  }

  method ReadInt(s: string) returns (v: int)
    ensures v == Atoi(s)
  {
    hide *;
    var i := SkipSpaces(s);
    AtoiFrom(s, i);
    if i < |s| && (s[i] == '-' || s[i] == '+') {
      var n := ReadDigits(s, i + 1);
      if s[i] == '-' {
        v := -(n as int);
      } else {
        v := n;
      }
    } else {
      v := ReadDigits(s, i);
    }
  }

  method CronFieldMatches(value: nat, field: string) returns (matches: bool)
    ensures matches == FieldMatches(value, field)
  {
    if field == "*" {
      return true;
    }
    if "*/" <= field {
      var step := ReadInt(field[2..]);
      return step > 0 && value % step == 0;
    }
    var dash := IndexOf(field, '-');
    if dash < |field| {
      var start := ReadInt(field);
      var end := ReadInt(field[dash + 1..]);
      return start <= value <= end;
    }
    if IndexOf(field, ',') < |field| {
      var rest := field;
      while rest != []
        invariant AnyEquals(Pieces(rest), value) <==> AnyEquals(Pieces(field), value)
        decreases |rest|
      {
        var i := IndexOf(rest, ',');
        ghost var later := if i < |rest| then Pieces(rest[i + 1..]) else [];
        FirstPiece(rest, value);
        if i > 0 {
          var v := ReadInt(rest[..i]);
          if v == value {
            return true;
          }
        }
        rest := if i < |rest| then rest[i + 1..] else [];
        assert Pieces(rest) == later;
      }
      return false;
    }
    var v := ReadInt(field);
    return v == value;
  }

  lemma AnyEqualsCons(piece: string, later: seq<string>, value: int)
    ensures AnyEquals([piece] + later, value) <==> Atoi(piece) == value || AnyEquals(later, value)
  {
    hide Atoi;
    assert ([piece] + later)[1..] == later;
  }

  lemma PiecesUnfold(s: string)
    requires s != []
    ensures var i := IndexOf(s, ',');
            var later := if i < |s| then Pieces(s[i + 1..]) else [];
            Pieces(s) == if i > 0 then [s[..i]] + later else later
  {
    var i := IndexOf(s, ',');
    var later := if i < |s| then Pieces(s[i + 1..]) else [];
    assert [] + later == later;
    hide IndexOf;
  }

  lemma NoPieces(value: int)
    ensures !AnyEquals([], value)
  {
  }

  lemma FirstPiece(s: string, value: int)
    requires s != []
    ensures var i := IndexOf(s, ',');
            AnyEquals(Pieces(s), value) <==>
              (i > 0 && Atoi(s[..i]) == value) || (i < |s| && AnyEquals(Pieces(s[i + 1..]), value))
  {
    hide *;
    var i := IndexOf(s, ',');
    var later := if i < |s| then Pieces(s[i + 1..]) else [];
    PiecesUnfold(s);
    NoPieces(value);
    if i > 0 {
      AnyEqualsCons(s[..i], later, value);
    }
  }

  // ----- what the four documented forms mean

  datatype FieldSpec =
    | Any
    | Every(step: nat)
    | Range(low: nat, high: nat)
    | OneOf(values: seq<nat>)
  {
    predicate Denotes(value: nat) {
      match this
      case Any => true
      case Every(step) => step > 0 && value % step == 0
      case Range(low, high) => low <= value <= high
      case OneOf(values) => value in values
    }

    /** A field is never empty. */
    predicate Writable() {
      OneOf? ==> values != []
    }

    function Text(): string {
      match this
      case Any => "*"
      case Every(step) => "*/" + Show(step)
      case Range(low, high) => Show(low) + "-" + Show(high)
      case OneOf(values) => Commas(values)
    }
  }

  function Commas(values: seq<nat>): string {
    if values == [] then []
    else if |values| == 1 then Show(values[0])
    else Show(values[0]) + "," + Commas(values[1..])
  }

  lemma IndexAfterDigits(n: nat, c: char, rest: string)
    requires !IsDigit(c)
    ensures IndexOf(Show(n) + [c] + rest, c) == |Show(n)|
    ensures IndexOf(Show(n), c) == |Show(n)|
  {
    var s := Show(n) + [c] + rest;
    assert forall j | 0 <= j < |Show(n)| :: s[j] == Show(n)[j] && IsDigit(s[j]);
    assert s[|Show(n)|] == c;
  }

  lemma {:induction false} CommasShape(values: seq<nat>)
    requires values != []
    ensures Commas(values) != [] && IsDigit(Commas(values)[0])
    ensures forall i | 0 <= i < |Commas(values)| :: IsDigit(Commas(values)[i]) || Commas(values)[i] == ','
    ensures |values| > 1 <==> IndexOf(Commas(values), ',') < |Commas(values)|
  {
    if |values| == 1 {
      assert IsDigit(Show(values[0])[0]);
      IndexAfterDigits(values[0], ',', []);
    } else {
      CommasShape(values[1..]);
      IndexAfterDigits(values[0], ',', Commas(values[1..]));
      assert IsDigit(Show(values[0])[0]);
    }
  }

  lemma {:induction false} PiecesOfCommas(values: seq<nat>, value: nat)
    requires values != []
    ensures AnyEquals(Pieces(Commas(values)), value) <==> value in values
  {
    var s, first := Commas(values), Show(values[0]);
    AtoiOfShow(values[0], []);
    assert first + [] == first;
    CommasShape(values);
    FirstPiece(s, value);
    if |values| == 1 {
      IndexAfterDigits(values[0], ',', []);
      assert s[..|first|] == first;
    } else {
      IndexAfterDigits(values[0], ',', Commas(values[1..]));
      assert s[..|first|] == first && s[|first| + 1..] == Commas(values[1..]);
      PiecesOfCommas(values[1..], value);
      assert value in values <==> value == values[0] || value in values[1..];
    }
  }

  lemma RangeStart(low: nat, tail: string)
    ensures var s := Show(low) + "-" + tail;
            && s != "*" && !("*/" <= s)
            && IndexOf(s, '-') == |Show(low)| < |s|
            && s[|Show(low)| + 1..] == tail
            && Atoi(s) == low
  {
    var s := Show(low) + "-" + tail;
    assert IsDigit(Show(low)[0]) && s[0] == Show(low)[0];
    IndexAfterDigits(low, '-', tail);
    AtoiOfShow(low, "-" + tail);
    hide Atoi, Show, IndexOf;
    assert s == Show(low) + ("-" + tail);
    assert s == Show(low) + ['-'] + tail;
  }

  /** Any dash makes the whole field one range: a list of ranges is cut at its first. */
  lemma DashMakesOneRange(low: nat, high: nat, rest: string, value: nat)
    requires rest != [] ==> !IsDigit(rest[0])
    ensures FieldMatches(value, Show(low) + "-" + (Show(high) + rest)) <==> low <= value <= high
  {
    RangeStart(low, Show(high) + rest);
    AtoiOfShow(high, rest);
    hide Show, Atoi;
  }

  lemma ListMeansValues(values: seq<nat>, value: nat)
    requires values != []
    ensures FieldMatches(value, Commas(values)) <==> value in values
  {
    var s := Commas(values);
    CommasShape(values);
    assert IndexOf(s, '-') == |s|;
    PiecesOfCommas(values, value);
    if |values| == 1 {
      AtoiOfShow(values[0], []);
      assert s + [] == s;
    }
    hide Pieces, Atoi, Show;
  }

  /** A field written in a documented form matches exactly what it denotes. */
  lemma FieldMeansSpec(spec: FieldSpec, value: nat)
    requires spec.Writable()
    ensures FieldMatches(value, spec.Text()) <==> spec.Denotes(value)
  {
    match spec {
      case Any =>
      case Every(step) =>
        assert spec.Text()[2..] == Show(step) + [];
        AtoiOfShow(step, []);
      case Range(low, high) =>
        DashMakesOneRange(low, high, [], value);
        assert Show(high) + [] == Show(high);
        hide FieldMatches;
      case OneOf(values) =>
        ListMeansValues(values, value);
        hide FieldMatches;
    }
  }

  // ----- lists that mix values and ranges

  datatype Item = One(n: nat) | Span(low: nat, high: nat) {
    predicate Holds(value: nat) {
      match this
      case One(n) => value == n
      case Span(low, high) => low <= value <= high
    }

    function First(): nat {
      match this case One(n) => n case Span(low, _) => low
    }

    function Last(): nat {
      match this case One(n) => n case Span(_, high) => high
    }

    function Text(): string {
      match this
      case One(n) => Show(n)
      case Span(low, high) => Show(low) + "-" + Show(high)
    }

    /** What follows the first number. */
    function AfterFirst(): string {
      match this case One(_) => "" case Span(_, high) => "-" + Show(high)
    }
  }

  function ItemsText(items: seq<Item>): string
    decreases |items|, 0
  {
    if items == [] then "" else items[0].Text() + MoreText(items[1..])
  }

  function MoreText(items: seq<Item>): string
    decreases |items|, 1
  {
    if items == [] then "" else "," + ItemsText(items)
  }

  /** The position of the first range. */
  function FirstSpan(items: seq<Item>): (k: nat)
    ensures k <= |items| && (k < |items| ==> items[k].Span?)
    ensures forall i | 0 <= i < k :: items[i].One?
  {
    if items == [] || items[0].Span? then 0 else 1 + FirstSpan(items[1..])
  }

  predicate InSome(items: seq<Item>, value: nat) {
    exists i :: 0 <= i < |items| && items[i].Holds(value)
  }

  lemma {:induction false} IndexSkips(prefix: string, rest: string, c: char)
    requires c !in prefix
    ensures IndexOf(prefix + rest, c) == |prefix| + IndexOf(rest, c)
  {
    if prefix == [] {
      assert prefix + rest == rest;
    } else {
      IndexSkips(prefix[1..], rest, c);
      assert (prefix + rest)[1..] == prefix[1..] + rest;
    }
  }

  /** A text starting with a range is cut at its dash. */
  lemma SpanText(low: nat, high: nat, rest: string)
    ensures var s := Show(low) + "-" + Show(high) + rest;
            IndexOf(s, '-') == |Show(low)| < |s| && s[|Show(low)| + 1..] == Show(high) + rest
  {
    RangeStart(low, Show(high) + rest);
    assert Show(low) + "-" + Show(high) + rest == Show(low) + "-" + (Show(high) + rest);
  }

  lemma NoDash(n: nat)
    ensures '-' !in Show(n) + ","
  {
    assert forall i | 0 <= i < |Show(n)| :: IsDigit(Show(n)[i]);
  }

  lemma SuffixOf(prefix: string, rest: string, at: nat)
    requires at <= |rest|
    ensures (prefix + rest)[|prefix| + at..] == rest[at..]
  {
  }

  lemma OneText(n: nat, rest: string, at: nat)
    requires at <= |rest|
    ensures var s := Show(n) + ("," + rest);
            IndexOf(s, '-') == |Show(n)| + 1 + IndexOf(rest, '-') && s[|Show(n)| + 1 + at..] == rest[at..]
  {
    hide *;
    NoDash(n);
    Reassociate(Show(n), ",", rest);
    IndexSkips(Show(n) + ",", rest, '-');
    SuffixOf(Show(n) + ",", rest, at);
  }

  lemma ItemsUnfold(items: seq<Item>)
    requires items != []
    ensures ItemsText(items) == items[0].Text() + MoreText(items[1..])
    ensures items[1..] != [] ==> MoreText(items[1..]) == "," + ItemsText(items[1..])
    ensures MoreText(items[1..]) != [] ==> !IsDigit(MoreText(items[1..])[0])
    ensures FirstSpan(items) == if items[0].Span? then 0 else 1 + FirstSpan(items[1..])
    ensures items[0].One? ==> items[0].Text() == Show(items[0].n)
    ensures items[0].Span? ==> items[0].Text() == Show(items[0].low) + "-" + Show(items[0].high)
  {
  }

  /** Behind the first dash comes the end of the first range. */
  lemma {:induction false} FirstDash(items: seq<Item>) returns (tail: string)
    requires FirstSpan(items) < |items|
    ensures var s, d := ItemsText(items), IndexOf(ItemsText(items), '-');
            d < |s| && s[d + 1..] == Show(items[FirstSpan(items)].high) + tail
    ensures tail != [] ==> !IsDigit(tail[0])
  {
    hide *;
    ItemsUnfold(items);
    var rest := items[1..];
    match items[0] {
      case Span(low, high) =>
        tail := MoreText(rest);
        SpanText(low, high, tail);
      case One(n) =>
        tail := FirstDash(rest);
        OneText(n, ItemsText(rest), IndexOf(ItemsText(rest), '-') + 1);
    }
  }

  lemma ItemsStart(items: seq<Item>)
    requires items != []
    ensures var s := ItemsText(items); s != [] && IsDigit(s[0]) && Atoi(s) == items[0].First()
  {
    var item, rest := items[0], MoreText(items[1..]);
    var after := item.AfterFirst() + rest;
    assert ItemsText(items) == Show(item.First()) + after;
    assert after != [] ==> !IsDigit(after[0]);
    assert IsDigit(Show(item.First())[0]);
    AtoiOfShow(item.First(), after);
    hide Atoi, Show;
  }

  lemma DashField(value: nat, s: string)
    requires s != [] && IsDigit(s[0]) && IndexOf(s, '-') < |s|
    ensures FieldMatches(value, s) <==> Atoi(s) <= value <= Atoi(s[IndexOf(s, '-') + 1..])
  {
    hide Atoi, IndexOf;
  }

  /** With a range among its items, a field matches one range: from its first number to the end
      of its first range, whatever else it lists. */
  lemma MixedMeansOneRange(items: seq<Item>, value: nat)
    requires FirstSpan(items) < |items|
    ensures FieldMatches(value, ItemsText(items)) <==> items[0].First() <= value <= items[FirstSpan(items)].high
  {
    hide *;
    ItemsStart(items);
    var tail := FirstDash(items);
    AtoiOfShow(items[FirstSpan(items)].high, tail);
    DashField(value, ItemsText(items));
  }

  function Numbers(items: seq<Item>): (r: seq<nat>)
    requires forall i | 0 <= i < |items| :: items[i].One?
    ensures |r| == |items| && forall i | 0 <= i < |items| :: r[i] == items[i].n
  {
    seq(|items|, i requires 0 <= i < |items| => items[i].n)
  }

  lemma {:induction false} ValuesText(items: seq<Item>)
    requires forall i | 0 <= i < |items| :: items[i].One?
    ensures ItemsText(items) == Commas(Numbers(items))
  {
    hide Show;
    if |items| == 1 {
      assert Show(items[0].n) + "" == Show(items[0].n);
    } else if items != [] {
      var rest := items[1..];
      ValuesText(rest);
      assert Numbers(items)[1..] == Numbers(rest);
      assert Show(items[0].n) + ("," + ItemsText(rest)) == Show(items[0].n) + "," + ItemsText(rest);
    }
  }

  /** Checkable on the items: together they are the numbers from `low` to `high`. None sticks
      out, the first number is there, and behind each item's end the next number is there. */
  predicate CoversExactly(items: seq<Item>, low: nat, high: nat) {
    && (forall i | 0 <= i < |items| && items[i].First() <= items[i].Last() ::
          low <= items[i].First() && items[i].Last() <= high)
    && (low <= high ==> InSome(items, low))
    && (forall i | 0 <= i < |items| && items[i].First() <= items[i].Last() < high :: InSome(items, items[i].Last() + 1))
  }

  lemma {:induction false} CoveredUpTo(items: seq<Item>, low: nat, high: nat, value: nat)
    requires CoversExactly(items, low, high) && low <= value <= high
    ensures InSome(items, value)
  {
    if value > low {
      CoveredUpTo(items, low, high, value - 1);
      var i :| 0 <= i < |items| && items[i].Holds(value - 1);
      if items[i].Holds(value) {
      } else {
        assert items[i].First() <= items[i].Last() == value - 1;
      }
    }
  }

  lemma CoversExact(items: seq<Item>, low: nat, high: nat)
    ensures CoversExactly(items, low, high) <==> forall v: nat :: low <= v <= high <==> InSome(items, v)
  {
    if CoversExactly(items, low, high) {
      forall v: nat ensures low <= v <= high <==> InSome(items, v) {
        if low <= v <= high {
          CoveredUpTo(items, low, high, v);
        }
      }
    }
    if forall v: nat :: low <= v <= high <==> InSome(items, v) {
      forall i | 0 <= i < |items| && items[i].First() <= items[i].Last()
        ensures low <= items[i].First() && items[i].Last() <= high
      {
        assert items[i].Holds(items[i].First()) && items[i].Holds(items[i].Last());
        assert InSome(items, items[i].First()) && InSome(items, items[i].Last());
      }
    }
  }

  /** Does the field mean what it lists? */
  predicate MixedOk(items: seq<Item>) {
    var k := FirstSpan(items);
    k < |items| ==> CoversExactly(items, items[0].First(), items[k].high)
  }

  /** A list of values and ranges matches exactly the numbers it lists if and only if it holds no
      range, or its items together are the one range it is read as. */
  lemma MixedExact(items: seq<Item>)
    requires items != []
    ensures (forall v: nat :: FieldMatches(v, ItemsText(items)) <==> InSome(items, v)) <==> MixedOk(items)
  {
    var k := FirstSpan(items);
    if k < |items| {
      forall v: nat ensures FieldMatches(v, ItemsText(items)) <==> items[0].First() <= v <= items[k].high {
        MixedMeansOneRange(items, v);
      }
      CoversExact(items, items[0].First(), items[k].high);
      hide FieldMatches, ItemsText, InSome, CoversExactly, FirstSpan;
    } else {
      ValuesText(items);
      forall v: nat ensures FieldMatches(v, ItemsText(items)) <==> InSome(items, v) {
        ListMeansValues(Numbers(items), v);
        hide FieldMatches, ItemsText, Commas;
        if v in Numbers(items) {
          var i :| 0 <= i < |items| && Numbers(items)[i] == v;
          assert items[i].Holds(v);
        }
        if InSome(items, v) {
          var i :| 0 <= i < |items| && items[i].Holds(v);
          assert Numbers(items)[i] == v;
        }
      }
    }
  }

  lemma ShownDigit(n: nat)
    requires n < 10
    ensures Show(n) == [('0' as int + n) as char]
  {
  }

  /** "1-3,5" does not match its 5. */
  lemma RangeThenValueExample()
    ensures ItemsText([Span(1, 3), One(5)]) == "1-3,5" && !FieldMatches(5, "1-3,5")
    ensures !MixedOk([Span(1, 3), One(5)])
  {
    var items := [Span(1, 3), One(5)];
    ShownDigit(1);
    ShownDigit(3);
    ShownDigit(5);
    assert items[1..] == [One(5)] && items[1..][1..] == [];
    assert FirstSpan(items) == 0 && items[1].First() == 5;
    hide FieldMatches, Show;
    MixedMeansOneRange(items, 5);
  }

  /** "1,3-5" matches a 2 it does not list. */
  lemma ValueThenRangeExample()
    ensures ItemsText([One(1), Span(3, 5)]) == "1,3-5" && FieldMatches(2, "1,3-5")
    ensures !MixedOk([One(1), Span(3, 5)])
  {
    var items := [One(1), Span(3, 5)];
    ShownDigit(1);
    ShownDigit(3);
    ShownDigit(5);
    assert items[1..] == [Span(3, 5)] && items[1..][1..] == [];
    assert FirstSpan(items) == 1 && items[0].Last() == 1 && !InSome(items, 2);
    hide FieldMatches, Show;
    MixedMeansOneRange(items, 2);
  }

  // ----- splitting a schedule into fields

  const WIDTH := 7

  function WordLength(s: string): (n: nat)
    ensures n <= |s|
    ensures forall i | 0 <= i < n :: !IsSpace(s[i])
    ensures n < |s| ==> IsSpace(s[n])
  {
    if s == [] || IsSpace(s[0]) then 0 else 1 + WordLength(s[1..])
  }

  /** `%7s`: skips space, then takes at most seven characters of the word. */
  function TakeToken(s: string): (string, string) {
    var t := SkipSpace(s);
    var n := if WordLength(t) < WIDTH then WordLength(t) else WIDTH;
    (t[..n], t[n..])
  }

  /** The first `n` tokens, or None when the text runs out. */
  function Tokens(s: string, n: nat): (r: Option<seq<string>>)
    ensures r.Some? ==> |r.value| == n && (n > 0 ==> s != [])
    decreases n
  {
    if n == 0 then Some([])
    else
      var (token, rest) := TakeToken(s);
      if token == [] then None
      else match Tokens(rest, n - 1)
        case None => None
        case Some(ts) => Some([token] + ts)
  }

  predicate IsWord(w: string) {
    w != [] && forall i | 0 <= i < |w| :: !IsSpace(w[i])
  }

  function Join(words: seq<string>): string {
    if words == [] then []
    else if |words| == 1 then words[0]
    else words[0] + " " + Join(words[1..])
  }

  lemma {:induction false} WordLengthOf(w: string, rest: string)
    requires (forall i | 0 <= i < |w| :: !IsSpace(w[i])) && (rest != [] ==> IsSpace(rest[0]))
    ensures WordLength(w + rest) == |w|
  {
    if w == [] {
      assert w + rest == rest;
    } else {
      WordLengthOf(w[1..], rest);
      assert (w + rest)[1..] == w[1..] + rest;
    }
  }

  lemma SkipOneSpace(s: string)
    ensures Tokens(" " + s, 0) == Tokens(s, 0)
    ensures TakeToken(" " + s) == TakeToken(s)
  {
    assert (" " + s)[1..] == s;
  }

  lemma OneToken(w: string, rest: string)
    requires IsWord(w) && (rest != [] ==> IsSpace(rest[0]))
    ensures |w| <= WIDTH ==> TakeToken(w + rest) == (w, rest)
    ensures |w| > WIDTH ==> TakeToken(w + rest).0 == w[..WIDTH]
  {
    WordLengthOf(w, rest);
    assert SkipSpace(w + rest) == w + rest;
  }

  lemma TokensAfter(w: string, rest: string, n: nat)
    requires IsWord(w) && (rest != [] ==> IsSpace(rest[0]))
    ensures |w| <= WIDTH ==>
              Tokens(w + rest, n + 1) ==
              match Tokens(rest, n) { case None => None case Some(ts) => Some([w] + ts) }
    ensures |w| > WIDTH && Tokens(w + rest, n + 1).Some? ==> Tokens(w + rest, n + 1).value[0] == w[..WIDTH]
  {
    OneToken(w, rest);
    hide TakeToken;
  }

  lemma FirstWordExact(w: string, joined: string, words: seq<string>)
    requires IsWord(w) && words != [] && words[0] == w
    ensures Tokens(w + (" " + joined), |words|) == Some(words) <==>
              |w| <= WIDTH && Tokens(joined, |words| - 1) == Some(words[1..])
  {
    var n := |words| - 1;
    SpaceIsSpace();
    TokensAfter(w, " " + joined, n);
    SkipOneSpace(joined);
    assert Tokens(" " + joined, n) == Tokens(joined, n);
    hide Tokens, IsWord, IsSpace;
    assert |w| > WIDTH ==> w[..WIDTH] != w;
    if Tokens(joined, n).Some? {
      var ts := Tokens(joined, n).value;
      assert ([w] + ts)[1..] == ts && words == [w] + words[1..];
    }
  }

  /** Words joined by spaces come back as the fields exactly when none is longer than
      seven characters; a longer one spills into the next field. */
  lemma {:induction false} TokensExact(words: seq<string>)
    requires words != [] && forall w | w in words :: IsWord(w)
    ensures Tokens(Join(words), |words|) == Some(words) <==> forall w | w in words :: |w| <= WIDTH
  {
    hide Tokens, IsWord;
    var w := words[0];
    assert w in words && words == [w] + words[1..];
    if |words| == 1 {
      OneWordExact(w);
      assert words == [w];
    } else {
      FirstWordExact(w, Join(words[1..]), words);
      TokensExact(words[1..]);
      assert Join(words) == w + (" " + Join(words[1..]));
    }
  }

  lemma OneWordExact(w: string)
    requires IsWord(w)
    ensures Tokens(w, 1) == Some([w]) <==> |w| <= WIDTH
  {
    assert Tokens("", 0) == Some([]);
    hide Tokens, IsWord, IsSpace;
    assert w + "" == w;
    TokensAfter(w, "", 0);
    assert [w] + [] == [w];
    assert |w| > WIDTH ==> w[..WIDTH] != w;
  }

  lemma SpaceIsSpace()
    ensures IsSpace(' ')
  {
  }

  datatype Fields = Fields(minute: string, hour: string, dom: string, month: string, dow: string)

  function ParseFields(schedule: string): Option<Fields> {
    match Tokens(schedule, 5)
    case None => None
    case Some(ts) =>
      if schedule[0] == '@' then None else Some(Fields(ts[0], ts[1], ts[2], ts[3], ts[4]))
  }
}
