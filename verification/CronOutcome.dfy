/** What a schedule written in the documented forms asks for, from its text to its next run. */
module CronOutcome {
  import opened Text
  import opened Wrappers
  import opened CronFields
  import opened CronSearch

  // ----- five words are five fields

  lemma SpacedOne(w: string, words: seq<string>)
    ensures Spaced([w] + words) == " " + (w + Spaced(words))
    ensures Join([w] + words) == w + Spaced(words)
    decreases words
  {
    assert ([w] + words)[1..] == words;
    if words == [] {
      assert w + Spaced([]) == w;
    } else {
      SpacedOne(words[0], words[1..]);
      assert words == [words[0]] + words[1..];
      assert w + " " + Join(words) == w + (" " + Join(words));
    }
  }

  lemma SpacedFour(a: string, b: string, c: string, d: string)
    ensures Spaced([a, b, c, d]) == " " + a + " " + b + " " + c + " " + d
  {
    SpacedOne(a, [b] + ([c] + ([d] + [])));
    SpacedOne(b, [c] + ([d] + []));
    SpacedOne(c, [d] + []);
    SpacedOne(d, []);
    assert [a] + ([b] + ([c] + ([d] + []))) == [a, b, c, d];
    hide Spaced, Join;
    assert Spaced([]) == "";
  }

  function FiveWords(mi: string, h: string, dom: string, mon: string, dow: string): string {
    mi + " " + h + " " + dom + " " + mon + " " + dow
  }

  lemma FiveWordsAre(mi: string, h: string, dom: string, mon: string, dow: string)
    ensures FiveWords(mi, h, dom, mon, dow) == mi + Spaced([h, dom, mon, dow])
    ensures FiveWords(mi, h, dom, mon, dow) == Join([mi, h, dom, mon, dow])
  {
    SpacedFour(h, dom, mon, dow);
    SpacedOne(mi, [h, dom, mon, dow]);
    assert [mi] + [h, dom, mon, dow] == [mi, h, dom, mon, dow];
    hide Spaced, Join;
  }

  /** One to seven characters, none of them white space. */
  predicate IsFieldWord(w: string) {
    1 <= |w| <= 7 && forall i | 0 <= i < |w| :: w[i] != ' ' && !(9 <= w[i] as int <= 13)
  }

  /** Minute, hour, day of month, month, day of week, in this order; more words are ignored. */
  lemma WordsAreFields(mi: string, h: string, dom: string, mon: string, dow: string, rest: string)
    requires IsFieldWord(mi) && IsFieldWord(h) && IsFieldWord(dom) && IsFieldWord(mon) && IsFieldWord(dow)
    requires mi[0] != '@' && (rest != "" ==> rest[0] == ' ')
    ensures ParseFields(mi + " " + h + " " + dom + " " + mon + " " + dow + rest) == Some(Fields(mi, h, dom, mon, dow))
  {
    var later := [h, dom, mon, dow];
    FiveWordsAre(mi, h, dom, mon, dow);
    FieldTokens(mi, later, rest);
    assert (FiveWords(mi, h, dom, mon, dow) + rest)[0] == mi[0];
    hide Tokens, Spaced, IsWord;
  }

  lemma {:induction false} FieldTokens(w: string, later: seq<string>, rest: string)
    requires IsFieldWord(w) && (forall v | v in later :: IsFieldWord(v)) && (rest != "" ==> rest[0] == ' ')
    ensures Tokens(w + Spaced(later) + rest, 1 + |later|) == Some([w] + later)
    decreases later
  {
    FieldWordIsWord(w);
    SpaceStarts(later, rest);
    assert w + Spaced(later) + rest == w + (Spaced(later) + rest);
    hide IsWord, IsFieldWord, Spaced, IsSpace;
    TokensAfter(w, Spaced(later) + rest, |later|);
    if later == [] {
      assert Tokens(Spaced(later) + rest, 0) == Some([]);
    } else {
      hide Tokens;
      FieldTokens(later[0], later[1..], rest);
      AfterSpace(later[0] + Spaced(later[1..]) + rest, |later|);
      assert [later[0]] + later[1..] == later;
    }
  }

  lemma SpaceStarts(later: seq<string>, rest: string)
    requires rest != "" ==> rest[0] == ' '
    ensures Spaced(later) + rest != [] ==> IsSpace((Spaced(later) + rest)[0])
    ensures later != [] ==> Spaced(later) + rest == " " + (later[0] + Spaced(later[1..]) + rest)
  {
  }

  /** An unknown form behind an at sign has no fields. */
  lemma AtSignHasNoFields(s: string)
    requires s != "" && s[0] == '@'
    ensures ParseFields(s) == None
  {
    hide Tokens;
  }

  lemma FieldWordIsWord(w: string)
    requires IsFieldWord(w)
    ensures IsWord(w) && |w| <= WIDTH
  {
  }

  /** Words that fit come back, and no more of them. */
  lemma SpacedWords(words: seq<string>)
    requires forall w | w in words :: IsFieldWord(w)
    ensures Tokens(Spaced(words), |words|) == Some(words) && Tokens(Spaced(words), |words| + 1) == None
    ensures Spaced(words) != "" ==> Spaced(words)[0] == ' ' && IsSpace(Spaced(words)[0])
    ensures words != [] ==> Spaced(words) != ""
  {
    SpacedFirst(words);
    hide *;
    forall w | w in words ensures IsWord(w) && |w| <= WIDTH {
      FieldWordIsWord(w);
    }
    SpacedTokens(words, 0);
    SpacedTokens(words, 1);
  }

  lemma SpacedFirst(words: seq<string>)
    ensures words == [] <==> Spaced(words) == ""
    ensures words != [] ==> Spaced(words)[0] == ' ' && IsSpace(Spaced(words)[0])
  {
  }

  // ----- any text of a field

  /** What a field matches, documented form or not: a star everything, a slash behind it the
      multiples of a positive number, a first dash the range between the two numbers read,
      anything without dash and comma the one number read. */
  lemma FieldTexts(value: nat, a: string, b: string)
    ensures FieldMatches(value, "*")
    ensures FieldMatches(value, "*/" + a) <==> Atoi(a) > 0 && value % Atoi(a) == 0
    ensures '-' !in a && !("*/" <= a + "-" + b) ==>
              (FieldMatches(value, a + "-" + b) <==> Atoi(a + "-" + b) <= value <= Atoi(b))
    ensures a != "*" && !("*/" <= a) && '-' !in a && ',' !in a ==> (FieldMatches(value, a) <==> Atoi(a) == value)
  {
    assert ("*/" + a)[2..] == a && "*/" + a != "*";
    DashAt(a, b);
    assert IndexOf(a, '-') < |a| ==> '-' in a;
    assert IndexOf(a, ',') < |a| ==> ',' in a;
    hide Atoi, IndexOf, Pieces;
  }

  lemma DashAt(a: string, b: string)
    ensures '-' !in a ==> IndexOf(a + "-" + b, '-') == |a| && (a + "-" + b)[|a| + 1..] == b && a + "-" + b != "*"
  {
    if '-' !in a {
      IndexSkips(a, "-" + b, '-');
      assert a + "-" + b == a + ("-" + b);
      assert (a + "-" + b)[|a|] == '-';
    }
  }

  /** A list without a dash matches the number read from each of its nonempty pieces. */
  lemma ListTexts(value: nat, a: string, b: string)
    requires '-' !in a + "," + b && ',' !in a && !("*/" <= a + "," + b)
    ensures FieldMatches(value, a + "," + b) <==> (a != "" && Atoi(a) == value) || AnyEquals(Pieces(b), value)
  {
    var s := a + "," + b;
    IndexSkips(a, "," + b, ',');
    assert s == a + ("," + b) && s[|a|] == ',' && s[..|a|] == a && s[|a| + 1..] == b;
    FirstPiece(s, value);
    assert IndexOf(s, '-') < |s| ==> '-' in s;
    hide Atoi, IndexOf, Pieces, AnyEquals;
  }

  // ----- fields written in the documented forms

  predicate InField(c: char) {
    IsDigit(c) || c == '*' || c == '/' || c == '-' || c == ','
  }

  lemma SpecIsWord(spec: FieldSpec)
    requires spec.Writable()
    ensures spec.Text() != "" && forall i | 0 <= i < |spec.Text()| :: InField(spec.Text()[i])
    ensures |spec.Text()| <= 7 ==> IsFieldWord(spec.Text())
    ensures spec.Text() == "*" <==> spec.Any?
  {
    match spec {
      case Any =>
      case Every(step) =>
        assert spec.Text()[1] == '/';
      case Range(low, high) =>
        assert spec.Text()[0] == Show(low)[0] && IsDigit(Show(low)[0]);
      case OneOf(values) => CommasShape(values);
    }
  }

  /** Written in at most seven characters. */
  predicate Fits(spec: FieldSpec) {
    spec.Writable() && |spec.Text()| <= 7
  }

  function SpecText(mi: FieldSpec, h: FieldSpec, dom: FieldSpec, mon: FieldSpec, dow: FieldSpec): string {
    mi.Text() + " " + h.Text() + " " + dom.Text() + " " + mon.Text() + " " + dow.Text()
  }

  lemma FittingWord(spec: FieldSpec)
    requires Fits(spec)
    ensures IsFieldWord(spec.Text()) && InField(spec.Text()[0])
  {
    SpecIsWord(spec);
  }

  lemma SpecsAreFields(mi: FieldSpec, h: FieldSpec, dom: FieldSpec, mon: FieldSpec, dow: FieldSpec)
    requires Fits(mi) && Fits(h) && Fits(dom) && Fits(mon) && Fits(dow)
    ensures SpecText(mi, h, dom, mon, dow) != "" && InField(SpecText(mi, h, dom, mon, dow)[0])
    ensures ParseFields(SpecText(mi, h, dom, mon, dow))
         == Some(Fields(mi.Text(), h.Text(), dom.Text(), mon.Text(), dow.Text()))
  {
    hide FieldSpec.Text, Fits, ParseFields;
    FittingWord(mi);
    FittingWord(h);
    FittingWord(dom);
    FittingWord(mon);
    FittingWord(dow);
    WordsAreFields(mi.Text(), h.Text(), dom.Text(), mon.Text(), dow.Text(), "");
    assert SpecText(mi, h, dom, mon, dow) + "" == SpecText(mi, h, dom, mon, dow);
    assert SpecText(mi, h, dom, mon, dow)[0] == mi.Text()[0];
  }

  /** A whole minute at which the five specifications all hold; of the two for the day, the one
      that is given, or either when both are. */
  ghost predicate Denoted(cal: Calendar, mi: FieldSpec, h: FieldSpec, dom: FieldSpec, mon: FieldSpec, dow: FieldSpec, t: int) {
    var day := t / 86400;
    && t % 60 == 0
    && mi.Denotes(t % 3600 / 60) && h.Denotes(t % 86400 / 3600) && mon.Denotes(cal.month(day))
    && (if dom.Any? then dow.Denotes(cal.dow(day))
        else if dow.Any? then dom.Denotes(cal.dom(day))
        else dom.Denotes(cal.dom(day)) || dow.Denotes(cal.dow(day)))
  }

  lemma DenotedIsMatch(cal: Calendar, mi: FieldSpec, h: FieldSpec, dom: FieldSpec, mon: FieldSpec, dow: FieldSpec, t: int)
    requires Fits(mi) && Fits(h) && Fits(dom) && Fits(mon) && Fits(dow)
    ensures Denoted(cal, mi, h, dom, mon, dow, t) <==>
              t % 60 == 0 && Matches(cal, Fields(mi.Text(), h.Text(), dom.Text(), mon.Text(), dow.Text()), t)
  {
    var day := DayOf(t);
    FieldMeansSpec(mi, MinuteOf(t));
    FieldMeansSpec(h, HourOf(t));
    FieldMeansSpec(mon, cal.month(day));
    FieldMeansSpec(dom, cal.dom(day));
    FieldMeansSpec(dow, cal.dow(day));
    SpecIsWord(dom);
    SpecIsWord(dow);
    hide FieldMatches, FieldSpec.Text, FieldSpec.Denotes, FieldSpec.Writable;
  }

  // ----- which of these texts the older daily form reads

  lemma NotANumber(s: string)
    requires s != "" && InField(s[0]) && !IsDigit(s[0]) && s[0] != '-'
    ensures ScanInt(s) == None && ScanInt(" " + s) == None
  {
    assert !IsSpace(s[0]);
    assert (" " + s)[1..] == s;
    assert SkipSpace(" " + s) == s == SkipSpace(s);
  }

  lemma NegativeScan(n: nat, rest: string)
    requires rest != [] ==> !IsDigit(rest[0])
    ensures ScanInt("-" + (Show(n) + rest)) == Some((-(n as int), rest))
  {
    var s := Show(n) + rest;
    LeadingDigitsOf(Show(n), rest);
    assert s[..|Show(n)|] == Show(n) && s[|Show(n)|..] == rest;
    ValueOfShow(n);
    assert ("-" + s)[1..] == s;
  }

  predicate Single(spec: FieldSpec, below: nat) {
    spec.OneOf? && |spec.values| == 1 && spec.values[0] < below
  }

  /** The number a field's text starts with, if it starts with one. */
  function FirstOf(spec: FieldSpec): Option<nat>
    requires spec.Writable()
  {
    match spec
    case Any => None
    case Every(_) => None
    case Range(low, _) => Some(low)
    case OneOf(values) => Some(values[0])
  }

  /** What follows it. */
  function TailOf(spec: FieldSpec): string {
    match spec
    case Any => ""
    case Every(_) => ""
    case Range(_, high) => "-" + Show(high)
    case OneOf(values) => if |values| <= 1 then "" else "," + Commas(values[1..])
  }

  lemma TextSplits(spec: FieldSpec)
    requires spec.Writable() && FirstOf(spec).Some?
    ensures spec.Text() == Show(FirstOf(spec).value) + TailOf(spec)
    ensures forall i | 0 <= i < |TailOf(spec)| :: InField(TailOf(spec)[i])
    ensures TailOf(spec) == "" <==> spec.OneOf? && |spec.values| == 1
    ensures TailOf(spec) != "" ==> TailOf(spec)[0] == if spec.Range? then '-' else ','
  {
    match spec {
      case Range(low, high) =>
        assert forall i | 0 <= i < |Show(high)| :: IsDigit(Show(high)[i]);
        assert Show(low) + "-" + Show(high) == Show(low) + ("-" + Show(high));
      case OneOf(values) =>
        if |values| == 1 {
          assert Show(values[0]) + "" == Show(values[0]);
        } else {
          CommasShape(values[1..]);
          assert Show(values[0]) + "," + Commas(values[1..]) == Show(values[0]) + ("," + Commas(values[1..]));
        }
    }
  }

  /** What `%d` makes of a field's text: its first number, or nothing. */
  lemma ScanNumber(spec: FieldSpec, n: nat, rest: string)
    requires spec.Writable() && FirstOf(spec) == Some(n) && rest != "" && rest[0] == ' '
    ensures ScanInt(spec.Text() + rest) == Some((n, TailOf(spec) + rest))
    ensures ScanInt(" " + (spec.Text() + rest)) == Some((n, TailOf(spec) + rest))
  {
    TextSplits(spec);
    hide *;
    var tail := TailOf(spec);
    assert Show(n) + tail + rest == Show(n) + (tail + rest);
    NoDigitFirst(tail, rest);
    ScanShown(n, tail + rest);
  }

  lemma NoDigitFirst(tail: string, rest: string)
    requires rest != "" && rest[0] == ' ' && (tail != "" ==> tail[0] == '-' || tail[0] == ',')
    ensures (tail + rest) != [] ==> !IsDigit((tail + rest)[0])
  {
  }

  lemma ScanNothing(spec: FieldSpec, rest: string)
    requires spec.Writable() && FirstOf(spec) == None && rest != "" && rest[0] == ' '
    ensures ScanInt(spec.Text() + rest) == None && ScanInt(" " + (spec.Text() + rest)) == None
  {
    assert spec.Text() != "" && spec.Text()[0] == '*';
    hide ScanInt, FieldSpec.Text;
    NotANumber(spec.Text() + rest);
  }

  lemma ThreeStars(dom: FieldSpec, mon: FieldSpec, dow: FieldSpec)
    requires dom.Writable() && mon.Writable() && dow.Writable()
    ensures [dom.Text(), mon.Text(), dow.Text()] == ["*", "*", "*"] <==> dom.Any? && mon.Any? && dow.Any?
  {
    SpecIsWord(dom);
    SpecIsWord(mon);
    SpecIsWord(dow);
    hide FieldSpec.Text;
    var three, stars := [dom.Text(), mon.Text(), dow.Text()], ["*", "*", "*"];
    if three == stars {
      assert three[0] == stars[0] && three[1] == stars[1] && three[2] == stars[2];
    }
  }

  lemma TailIsToken(tail: string, rest: string)
    requires 1 <= |tail| <= 7 && (forall i | 0 <= i < |tail| :: InField(tail[i])) && tail[0] != '*'
    requires rest != "" && rest[0] == ' '
    ensures Tokens(tail + rest, 3) != Some(["*", "*", "*"])
  {
    TokensAfter(tail, rest, 2);
    hide Tokens;
    if Tokens(rest, 2).Some? {
      assert ([tail] + Tokens(rest, 2).value)[0] == tail;
    }
  }

  /** A text whose minute is no single number is not read. */
  lemma MinuteRead(mi: FieldSpec, rest: string)
    requires mi.Writable() && rest != "" && rest[0] == ' ' && Tokens(rest, 4).Some?
    ensures if mi.OneOf? && |mi.values| == 1 then ScanInt(mi.Text() + rest) == Some((mi.values[0], rest))
            else ParseDaily(mi.Text() + rest) == None
  {
    hide ScanInt, Tokens, FieldSpec.Text, Show, InField;
    if FirstOf(mi).None? {
      ScanNothing(mi, rest);
    } else {
      ScanNumber(mi, FirstOf(mi).value, rest);
      TextSplits(mi);
      if TailOf(mi) != "" {
        TailNoHour(mi.Text() + rest, mi, TailOf(mi), rest);
      } else {
        assert "" + rest == rest;
      }
    }
  }

  /** A dash left behind the minute makes the hour negative or zero, which leaves one field too
      many; a comma is no number. */
  lemma TailNoHour(s: string, mi: FieldSpec, tail: string, rest: string)
    requires mi.Range? || mi.OneOf?
    requires ScanInt(s).Some? && ScanInt(s).value.1 == tail + rest && Tokens(rest, 4).Some?
    requires mi.Range? ==> tail == "-" + Show(mi.high)
    requires mi.OneOf? ==> tail != "" && tail[0] == ','
    requires rest != "" && rest[0] == ' '
    ensures ParseDaily(s) == None
  {
    hide ScanInt, Tokens, Show;
    if mi.Range? {
      NegativeScan(mi.high, rest);
      assert tail + rest == "-" + (Show(mi.high) + rest);
    } else {
      NotANumber(tail + rest);
    }
  }

  /** Behind the minute, the hour must be a single number and the rest three stars. */
  lemma HourRead(minute: nat, h: FieldSpec, s: string, rest: string, three: seq<string>)
    requires h.Writable() && |h.Text()| <= 7
    requires ScanInt(s) == Some((minute, rest)) && rest == " " + (h.Text() + Spaced(three))
    requires Spaced(three) != "" && Spaced(three)[0] == ' '
    requires Tokens(Spaced(three), 3) == Some(three) && Tokens(Spaced(three), 4) == None
    ensures ParseDaily(s) == if minute < 60 && Single(h, 24) && three == ["*", "*", "*"]
                             then Some((h.values[0], minute)) else None
  {
    hide ScanInt, Tokens, FieldSpec.Text, FieldSpec.Writable, Show, Spaced, InField;
    if FirstOf(h).None? {
      ScanNothing(h, Spaced(three));
    } else {
      ScanNumber(h, FirstOf(h).value, Spaced(three));
      TextSplits(h);
      if TailOf(h) != "" {
        TailIsToken(TailOf(h), Spaced(three));
      } else {
        assert "" + Spaced(three) == Spaced(three);
      }
    }
  }

  /** What follows the minute and what follows the hour, token by token. */
  lemma LaterTokens(h: FieldSpec, dom: FieldSpec, mon: FieldSpec, dow: FieldSpec)
    requires Fits(h) && Fits(dom) && Fits(mon) && Fits(dow)
    ensures var three := [dom.Text(), mon.Text(), dow.Text()];
            var later := [h.Text()] + three;
            && Spaced(later) == " " + (h.Text() + Spaced(three)) && Tokens(Spaced(later), 4).Some?
            && Spaced(three) != "" && Spaced(three)[0] == ' '
            && Tokens(Spaced(three), 3) == Some(three) && Tokens(Spaced(three), 4) == None
            && (three == ["*", "*", "*"] <==> dom.Any? && mon.Any? && dow.Any?)
  {
    ThreeStars(dom, mon, dow);
    hide Spaced, Tokens, FieldSpec.Text, Fits, IsSpace, IsFieldWord;
    FittingWord(h);
    FittingWord(dom);
    FittingWord(mon);
    FittingWord(dow);
    var three := [dom.Text(), mon.Text(), dow.Text()];
    SpacedWords(three);
    SpacedWords([h.Text()] + three);
    SpacedOne(h.Text(), three);
  }

  /** The daily form reads exactly a single minute and hour with three stars. */
  lemma DailyExact(mi: FieldSpec, h: FieldSpec, dom: FieldSpec, mon: FieldSpec, dow: FieldSpec)
    requires Fits(mi) && Fits(h) && Fits(dom) && Fits(mon) && Fits(dow)
    ensures ParseDaily(SpecText(mi, h, dom, mon, dow)) ==
            if Single(mi, 60) && Single(h, 24) && dom.Any? && mon.Any? && dow.Any?
            then Some((h.values[0], mi.values[0])) else None
  {
    var three := [dom.Text(), mon.Text(), dow.Text()];
    var later := [h.Text()] + three;
    FiveWordsAre(mi.Text(), h.Text(), dom.Text(), mon.Text(), dow.Text());
    LaterTokens(h, dom, mon, dow);
    var s := mi.Text() + Spaced(later);
    assert later == [h.Text(), dom.Text(), mon.Text(), dow.Text()];
    assert SpecText(mi, h, dom, mon, dow) == s;
    hide Spaced, Tokens, FieldSpec.Text, FieldSpec.Writable, ScanInt, ParseDaily, IsFieldWord, Show;
    MinuteRead(mi, Spaced(later));
    if mi.OneOf? && |mi.values| == 1 {
      HourRead(mi.values[0], h, s, Spaced(later), three);
    }
  }

  // ----- from a schedule's text to its next run

  /** Later than now by at most 366 days, the minute before it not past the year 2099. */
  ghost predicate Within(cal: Calendar, now: int, t: int) {
    now < t <= now + 366 * 86400 && cal.year((t - 60) / 86400) < 2100
  }

  lemma SpecsAreNotFixed(s: string, now: int)
    requires s != "" && InField(s[0])
    ensures FixedOutcome(Some(s), now) == None
  {
    assert s[0] != '@';
    assert "@every "[0] == '@' && "@in "[0] == '@' && "@at "[0] == '@';
    hide Atoi;
  }

  lemma SpecsSearched(cal: Calendar, mi: FieldSpec, h: FieldSpec, dom: FieldSpec, mon: FieldSpec, dow: FieldSpec,
                      now: int, r: Option<int>)
    requires Fits(mi) && Fits(h) && Fits(dom) && Fits(mon) && Fits(dow)
    requires IsNextRun(cal, Fields(mi.Text(), h.Text(), dom.Text(), mon.Text(), dow.Text()), now, r)
    ensures r.None? ==> forall t | Within(cal, now, t) :: !Denoted(cal, mi, h, dom, mon, dow, t)
    ensures r.Some? ==>
              && Within(cal, now, r.value) && Denoted(cal, mi, h, dom, mon, dow, r.value)
              && forall t | now < t < r.value :: !Denoted(cal, mi, h, dom, mon, dow, t)
  {
    hide Denoted, Matches, Fits;
    var f := Fields(mi.Text(), h.Text(), dom.Text(), mon.Text(), dow.Text());
    forall t ensures Denoted(cal, mi, h, dom, mon, dow, t) <==> t % 60 == 0 && Matches(cal, f, t) {
      DenotedIsMatch(cal, mi, h, dom, mon, dow, t);
    }
    hide FieldSpec.Text;
  }

  lemma DailyAt(now: int, hour: nat, minute: nat)
    requires hour < 24 && minute < 60
    ensures var t := NextDaily(now, hour, minute);
            now < t <= now + 86400 && t % 86400 == hour * 3600 + minute * 60
  {
    DailyIsCandidate(now, hour, minute);
    var t := NextDaily(now, hour, minute);
    BreakDown(t);
    DivDay(DayOf(t), hour * HOUR + minute * MINUTE);
    var day := DayOf(now);
    DivDay(day, hour * HOUR + minute * MINUTE);
    DivDay(day + 1, hour * HOUR + minute * MINUTE);
  }

  /** A schedule of five specifications recurs at the first minute after now that all of them
      denote, if one lies within the limits; failing that, at its hour and minute if it is
      nothing but those; and is invalid otherwise. */
  lemma SpecsOutcome(cal: Calendar, mi: FieldSpec, h: FieldSpec, dom: FieldSpec, mon: FieldSpec, dow: FieldSpec,
                     now: int, o: Outcome)
    requires Advances(cal)
    requires Fits(mi) && Fits(h) && Fits(dom) && Fits(mon) && Fits(dow)
    requires IsOutcome(cal, Some(mi.Text() + " " + h.Text() + " " + dom.Text() + " " + mon.Text() + " " + dow.Text()), now, o)
    ensures if exists t :: Within(cal, now, t) && Denoted(cal, mi, h, dom, mon, dow, t) then
              && o.Recurring? && Within(cal, now, o.next) && Denoted(cal, mi, h, dom, mon, dow, o.next)
              && forall t | now < t < o.next :: !Denoted(cal, mi, h, dom, mon, dow, t)
            else if Single(mi, 60) && Single(h, 24) && dom.Any? && mon.Any? && dow.Any? then
              && o.Recurring? && now < o.next <= now + 86400
              && o.next % 86400 == h.values[0] * 3600 + mi.values[0] * 60
            else
              o == Invalid
  {
    var s := SpecText(mi, h, dom, mon, dow);
    var f := Fields(mi.Text(), h.Text(), dom.Text(), mon.Text(), dow.Text());
    SpecsAreFields(mi, h, dom, mon, dow);
    SpecsAreNotFixed(s, now);
    DailyExact(mi, h, dom, mon, dow);
    hide Denoted, Within, Fits, FieldSpec.Text, IsNextRun, NextDaily, ParseDaily, ParseFields, FixedOutcome, InField;
    if IsNextRun(cal, f, now, None) {
      SpecsSearched(cal, mi, h, dom, mon, dow, now, None);
      if Single(mi, 60) && Single(h, 24) && dom.Any? && mon.Any? && dow.Any? {
        DailyAt(now, h.values[0], mi.values[0]);
      }
    } else {
      SpecsSearched(cal, mi, h, dom, mon, dow, now, Some(o.next));
    }
  }

  lemma SignedDigits(n: nat, rest: string)
    requires rest != [] ==> !IsDigit(rest[0])
    ensures var s := Show(n) + rest;
            (forall i | 0 <= i < LeadingDigits(s) :: IsDigit(s[i])) && Value(s[..LeadingDigits(s)]) == n
  {
    LeadingDigitsOf(Show(n), rest);
    assert (Show(n) + rest)[..|Show(n)|] == Show(n);
    ValueOfShow(n);
  }

  /** `atoi` on a number, with a sign, behind a space, or on no number at all. */
  lemma AtoiExact(n: nat, rest: string)
    requires rest != [] ==> !IsDigit(rest[0])
    ensures Atoi(Show(n) + rest) == Atoi("+" + (Show(n) + rest)) == n
    ensures Atoi("-" + (Show(n) + rest)) == -(n as int)
    ensures Atoi(" " + rest) == Atoi(rest)
    ensures rest == [] || (!IsSpace(rest[0]) && rest[0] != '-' && rest[0] != '+') ==> Atoi(rest) == 0
  {
    var s := Show(n) + rest;
    AtoiOfShow(n, rest);
    SignedDigits(n, rest);
    assert SkipSpace("-" + s) == "-" + s && SkipSpace("+" + s) == "+" + s;
    assert ("-" + s)[1..] == s && ("+" + s)[1..] == s && (" " + rest)[1..] == rest;
    assert LeadingDigits(rest) == 0 && Value(rest[..0]) == 0;
    assert SkipSpace(" " + rest) == SkipSpace(rest);
    hide Show, Value, LeadingDigits;
  }

  /** An interval recurs that many seconds later, a minute later unless it is positive. */
  lemma EveryOutcome(cal: Calendar, interval: string, now: int, o: Outcome)
    requires IsOutcome(cal, Some("@every " + interval), now, o)
    ensures o == Recurring(now + if Atoi(interval) <= 0 then 60 else Atoi(interval))
  {
    assert ("@every " + interval)[7..] == interval;
    hide Atoi;
  }

  /** A delay runs once that many seconds later, one second later unless it is positive. */
  lemma InOutcome(cal: Calendar, delay: string, now: int, o: Outcome)
    requires IsOutcome(cal, Some("@in " + delay), now, o)
    ensures o == OneTime(now + if Atoi(delay) <= 0 then 1 else Atoi(delay))
  {
    assert ("@in " + delay)[4..] == delay && ("@in " + delay)[1] != "@every "[1];
    hide Atoi;
  }

  /** A time runs once at that time; no schedule at all runs once, now. */
  lemma AtOutcome(cal: Calendar, time: string, now: int, o: Outcome)
    ensures IsOutcome(cal, Some("@at " + time), now, o) ==> o == OneTime(Atoi(time))
    ensures IsOutcome(cal, None, now, o) || IsOutcome(cal, Some(""), now, o) ==> o == OneTime(now)
  {
    var s := "@at " + time;
    assert s[4..] == time && s[1] != "@every "[1] && s[1] != "@in "[1];
    hide Atoi;
  }
}
