/**
 The quoted phrases that a search query becomes. A reader of double-quoted
 strings gets the intended phrases back, and no other character of the query has
 a meaning.
 */
module Phrases {
  import opened Basics

  // ── characters ─────────────────────────────────────────────────────────

  /** The general category Cc. */
  predicate IsControl(c: char) {
    c as int <= 0x1F || 0x7F <= c as int <= 0x9F
  }

  /** The property `White_Space`. */
  predicate IsSpace(c: char) {
    var n := c as int;
    || 0x9 <= n <= 0xD || n == 0x20 || n == 0x85 || n == 0xA0 || n == 0x1680
    || 0x2000 <= n <= 0x200A || n == 0x2028 || n == 0x2029 || n == 0x202F || n == 0x205F || n == 0x3000
  }

  predicate IsQuote(c: char) {
    c == '"'
  }

  /** A character that the query has to keep. */
  predicate IsText(c: char) {
    !IsControl(c) && !IsSpace(c) && !IsQuote(c)
  }

  function Pick(p: char -> bool, s: string): string {
    if s == [] then [] else if p(s[0]) then [s[0]] + Pick(p, s[1..]) else Pick(p, s[1..])
  }

  predicate IsNoControl(c: char) {
    !IsControl(c)
  }

  function Clean(s: string): string {
    Pick(IsNoControl, s)
  }

  // ── words ──────────────────────────────────────────────────────────────

  function WordLength(s: string): (n: nat)
    ensures n <= |s|
    ensures forall i :: 0 <= i < n ==> !IsSpace(s[i])
    ensures n < |s| ==> IsSpace(s[n])
  {
    if s == [] || IsSpace(s[0]) then 0 else 1 + WordLength(s[1..])
  }

  /** `split_whitespace`. */
  function Words(s: string): seq<string>
    decreases |s|
  {
    if s == [] then []
    else if IsSpace(s[0]) then Words(s[1..])
    else [s[..WordLength(s)]] + Words(s[WordLength(s)..])
  }

  function Join(parts: seq<string>): string {
    if parts == [] then []
    else if |parts| == 1 then parts[0]
    else parts[0] + " " + Join(parts[1..])
  }

  function FindQuote(s: string): (at: Option<nat>)
    ensures at.Some? ==> at.value < |s| && s[at.value] == '"' && forall i :: 0 <= i < at.value ==> s[i] != '"'
    ensures at.None? ==> forall i :: 0 <= i < |s| ==> s[i] != '"'
  {
    if s == [] then None
    else if s[0] == '"' then Some(0)
    else
      var at := FindQuote(s[1..]);
      if at.Some? then Some(at.value + 1) else None
  }

  // ── the intended phrases ───────────────────────────────────────────────

  /** The first pair of double quotes: the text before, between and after. */
  function FirstPair(s: string): (r: Option<(string, string, string)>)
    ensures r.Some? ==> s == r.value.0 + ['"'] + r.value.1 + ['"'] + r.value.2
    ensures r.Some? ==> '"' !in r.value.0 && '"' !in r.value.1
  {
    var open := FindQuote(s);
    if open.None? then None
    else
      var after := s[open.value + 1..];
      var close := FindQuote(after);
      if close.None? then None
      else Some((s[..open.value], after[..close.value], after[close.value + 1..]))
  }

  function Between(text: string): seq<string> {
    if Words(text) == [] then [] else [Join(Words(text))]
  }

  /** Text between two quotes is one phrase, and each other word is one. */
  function Intended(s: string): seq<string>
    decreases |s|
  {
    var pair := FirstPair(s);
    if pair.None? then Words(s)
    else Words(pair.value.0) + Between(pair.value.1) + Intended(pair.value.2)
  }

  function Doubled(s: string): string {
    if s == [] then [] else if s[0] == '"' then "\"\"" + Doubled(s[1..]) else [s[0]] + Doubled(s[1..])
  }

  function Quoted(s: string): string {
    ['"'] + Doubled(s) + ['"']
  }

  function QuotedAll(parts: seq<string>): (r: seq<string>)
    ensures |r| == |parts|
  {
    seq(|parts|, i requires 0 <= i < |parts| => Quoted(parts[i]))
  }

  // ── the printer ────────────────────────────────────────────────────────

  /** `push_words`: each word with its quotes doubled. */
  method PushWords(phrases: seq<string>, text: string) returns (r: seq<string>)
    ensures r == phrases + QuotedAll(Words(text))
  {
    var words := Words(text);
    r := phrases;
    for i := 0 to |words|
      invariant r == phrases + QuotedAll(words[..i])
    {
      r := r + [Quoted(words[i])];
    }
  }

  /** The words between two quotes, as one phrase when there is one. */
  method PushPhrase(phrases: seq<string>, text: string) returns (r: seq<string>)
    requires '"' !in text
    ensures r == phrases + QuotedAll(Between(text))
  {
    var words := Words(text);
    r := phrases;
    if words != [] {
      WordsHaveNoQuote(text);
      DoubledIsPlain(Join(words));
      r := r + [['"'] + Join(words) + ['"']];
    }
  }

  /** `fts5_phrases`: the loop takes one pair of quotes from the rest of the text. */
  method Fts5Phrases(input: string) returns (phrases: seq<string>)
    ensures phrases == QuotedAll(Intended(Clean(input)))
  {
    hide Words, Between, Quoted, Clean;
    ghost var all := QuotedAll(Intended(Clean(input)));
    var rest := Clean(input);
    phrases := [];
    var more := true;
    while more
      invariant phrases + QuotedAll(if more then Intended(rest) else Words(rest)) == all
      decreases more, |rest|
    {
      ghost var before := phrases;
      var open := FindQuote(rest);
      var close := if open.Some? then FindQuote(rest[open.value + 1..]) else None;
      if close.None? {
        more := false;
      } else {
        var after := rest[open.value + 1..];
        assert FirstPair(rest) == Some((rest[..open.value], after[..close.value], after[close.value + 1..]));
        IntendedOfPair(rest);
        phrases := PushWords(phrases, rest[..open.value]);
        phrases := PushPhrase(phrases, after[..close.value]);
        QuotedThree(before, Words(rest[..open.value]), Between(after[..close.value]), Intended(after[close.value + 1..]));
        rest := after[close.value + 1..];
      }
    }
    phrases := PushWords(phrases, rest);
  }

  lemma QuotedThree(before: seq<string>, a: seq<string>, b: seq<string>, c: seq<string>)
    ensures before + QuotedAll(a + b + c) == before + QuotedAll(a) + QuotedAll(b) + QuotedAll(c)
  {
    hide Quoted;
    assert QuotedAll(a + b + c) == QuotedAll(a) + QuotedAll(b) + QuotedAll(c);
  }

  /** `fts5_query_from_words`. */
  method Fts5QueryFromWords(input: string) returns (query: string)
    ensures Lex(query) == Some(Intended(Clean(input)))
  {
    var phrases := Fts5Phrases(input);
    query := Join(phrases);
    LexJoined(Intended(Clean(input)));
  }

  // ── words and quotes ───────────────────────────────────────────────────

  lemma {:induction false} PickConcat(p: char -> bool, a: string, b: string)
    ensures Pick(p, a + b) == Pick(p, a) + Pick(p, b)
  {
    if a == [] {
      assert a + b == b;
    } else {
      PickConcat(p, a[1..], b);
      assert (a + b)[0] == a[0] && (a + b)[1..] == a[1..] + b;
    }
  }

  lemma PickOne(p: char -> bool, c: char)
    ensures Pick(p, [c]) == if p(c) then [c] else []
  {
    assert [c][1..] == [];
  }

  lemma {:induction false} PickNothing(p: char -> bool, s: string)
    ensures Pick(p, s) == [] <==> forall i :: 0 <= i < |s| ==> !p(s[i])
  {
    if s != [] {
      PickNothing(p, s[1..]);
      assert s == [s[0]] + s[1..];
    }
  }

  function PickAll(p: char -> bool, parts: seq<string>): string {
    if parts == [] then [] else Pick(p, parts[0]) + PickAll(p, parts[1..])
  }

  lemma {:induction false} PickAllConcat(p: char -> bool, a: seq<string>, b: seq<string>)
    ensures PickAll(p, a + b) == PickAll(p, a) + PickAll(p, b)
  {
    hide Pick;
    if a == [] {
      assert a + b == b;
    } else {
      PickAllConcat(p, a[1..], b);
      assert (a + b)[0] == a[0] && (a + b)[1..] == a[1..] + b;
      assert PickAll(p, a + b) == Pick(p, a[0]) + (PickAll(p, a[1..]) + PickAll(p, b));
    }
  }

  /** Words lose spaces and nothing else. */
  lemma {:induction false} WordsKeep(p: char -> bool, s: string)
    requires forall c :: IsSpace(c) ==> !p(c)
    ensures PickAll(p, Words(s)) == Pick(p, s)
    decreases |s|
  {
    if s != [] {
      if IsSpace(s[0]) {
        WordsKeep(p, s[1..]);
      } else {
        var n := WordLength(s);
        WordsKeep(p, s[n..]);
        PickConcat(p, s[..n], s[n..]);
        assert s == s[..n] + s[n..];
        assert ([s[..n]] + Words(s[n..]))[1..] == Words(s[n..]);
      }
    }
  }

  lemma {:induction false} JoinKeeps(p: char -> bool, parts: seq<string>)
    requires !p(' ')
    ensures Pick(p, Join(parts)) == PickAll(p, parts)
  {
    if |parts| == 1 {
      assert PickAll(p, parts[1..]) == [];
    } else if |parts| > 1 {
      JoinKeeps(p, parts[1..]);
      PickConcat(p, parts[0] + " ", Join(parts[1..]));
      PickConcat(p, parts[0], " ");
    }
  }

  lemma WordsHaveNoQuote(text: string)
    requires '"' !in text
    ensures '"' !in Join(Words(text))
  {
    WordsKeep(IsQuote, text);
    JoinKeeps(IsQuote, Words(text));
    PickNothing(IsQuote, text);
    PickNothing(IsQuote, Join(Words(text)));
  }

  lemma {:induction false} DoubledIsPlain(s: string)
    requires '"' !in s
    ensures Doubled(s) == s
  {
    if s != [] {
      DoubledIsPlain(s[1..]);
    }
  }

  // ── the reader ─────────────────────────────────────────────────────────

  /** Reads the inside of a quoted string, and gives it with the rest. */
  function LexBody(s: string): (r: Option<(string, string)>)
    ensures r.Some? ==> |r.value.1| < |s|
  {
    if s == [] then None
    else if s[0] != '"' then
      var r := LexBody(s[1..]);
      if r.None? then None else Some(([s[0]] + r.value.0, r.value.1))
    else if |s| > 1 && s[1] == '"' then
      var r := LexBody(s[2..]);
      if r.None? then None else Some((['"'] + r.value.0, r.value.1))
    else Some(([], s[1..]))
  }

  /** Reads quoted strings that single spaces divide; `None` for any other text. */
  function Lex(s: string): Option<seq<string>>
    decreases |s|
  {
    if s == [] then Some([])
    else if s[0] != '"' then None
    else
      var r := LexBody(s[1..]);
      if r.None? then None
      else if r.value.1 == [] then Some([r.value.0])
      else if r.value.1[0] != ' ' || |r.value.1| == 1 then None
      else
        var rest := Lex(r.value.1[1..]);
        if rest.None? then None else Some([r.value.0] + rest.value)
  }

  lemma LexBodyOfQuote(rest: string)
    ensures LexBody("\"\"" + rest) ==
            if LexBody(rest).None? then None else Some((['"'] + LexBody(rest).value.0, LexBody(rest).value.1))
  {
    assert ("\"\"" + rest)[2..] == rest;
  }

  lemma LexBodyOfPlain(c: char, rest: string)
    requires c != '"'
    ensures LexBody([c] + rest) ==
            if LexBody(rest).None? then None else Some(([c] + LexBody(rest).value.0, LexBody(rest).value.1))
  {
    assert ([c] + rest)[1..] == rest;
  }

  lemma {:induction false} LexBodyOfDoubled(s: string, tail: string)
    requires tail == [] || tail[0] != '"'
    ensures LexBody(Doubled(s) + (['"'] + tail)) == Some((s, tail))
  {
    if s == [] {
      assert Doubled(s) + (['"'] + tail) == ['"'] + tail;
      assert (['"'] + tail)[1..] == tail;
    } else {
      hide LexBody;
      LexBodyOfDoubled(s[1..], tail);
      var rest := Doubled(s[1..]) + (['"'] + tail);
      assert s == [s[0]] + s[1..];
      if s[0] == '"' {
        assert Doubled(s) + (['"'] + tail) == "\"\"" + rest;
        LexBodyOfQuote(rest);
      } else {
        assert Doubled(s) + (['"'] + tail) == [s[0]] + rest;
        LexBodyOfPlain(s[0], rest);
      }
    }
  }

  lemma JoinedHead(parts: seq<string>)
    requires parts != []
    ensures Join(QuotedAll(parts)) ==
            Quoted(parts[0]) + if |parts| == 1 then [] else [' '] + Join(QuotedAll(parts[1..]))
  {
    hide Quoted;
    assert QuotedAll(parts)[1..] == QuotedAll(parts[1..]);
  }

  lemma LexBodyOfQuoted(phrase: string, tail: string)
    requires tail == [] || tail[0] != '"'
    ensures var text := Quoted(phrase) + tail;
            text != [] && text[0] == '"' && LexBody(text[1..]) == Some((phrase, tail))
  {
    hide Doubled, LexBody;
    LexBodyOfDoubled(phrase, tail);
    assert (Quoted(phrase) + tail)[1..] == Doubled(phrase) + (['"'] + tail);
  }

  /** The last quoted phrase of a text. */
  lemma LexLast(phrase: string)
    ensures Lex(Quoted(phrase)) == Some([phrase])
  {
    hide Quoted, LexBody;
    LexBodyOfQuoted(phrase, []);
    assert Quoted(phrase) + [] == Quoted(phrase);
  }

  /** A quoted phrase with a space and other phrases after it. */
  lemma LexMore(phrase: string, rest: string)
    requires rest != [] && Lex(rest).Some?
    ensures Lex(Quoted(phrase) + ([' '] + rest)) == Some([phrase] + Lex(rest).value)
  {
    hide Quoted, LexBody;
    LexBodyOfQuoted(phrase, [' '] + rest);
    assert ([' '] + rest)[1..] == rest;
  }

  /** What the printer writes, the reader reads. */
  lemma {:induction false} LexJoined(parts: seq<string>)
    ensures Lex(Join(QuotedAll(parts))) == Some(parts)
  {
    if parts != [] {
      hide Quoted, Lex, Join;
      JoinedHead(parts);
      assert parts == [parts[0]] + parts[1..];
      if |parts| == 1 {
        LexLast(parts[0]);
        assert parts == [parts[0]];
        assert Quoted(parts[0]) + [] == Quoted(parts[0]);
      } else {
        LexJoined(parts[1..]);
        JoinNotEmpty(parts[1..]);
        LexMore(parts[0], Join(QuotedAll(parts[1..])));
      }
    }
  }

  lemma {:induction false} LexBodyIsPrinted(s: string)
    ensures LexBody(s).Some? ==> s == Doubled(LexBody(s).value.0) + (['"'] + LexBody(s).value.1)
  {
    if s != [] && s[0] != '"' {
      LexBodyIsPrinted(s[1..]);
      if LexBody(s).Some? {
        assert LexBody(s).value.0[1..] == LexBody(s[1..]).value.0;
        assert s == [s[0]] + s[1..];
      }
    } else if |s| > 1 && s[1] == '"' {
      LexBodyIsPrinted(s[2..]);
      if LexBody(s).Some? {
        assert LexBody(s).value.0[1..] == LexBody(s[2..]).value.0;
        assert s == "\"\"" + s[2..];
      }
    } else if s != [] {
      assert s == ['"'] + s[1..];
    }
  }

  lemma QuotedFront(phrase: string, tail: string, s: string)
    requires s != [] && s[0] == '"' && s[1..] == Doubled(phrase) + (['"'] + tail)
    ensures s == Quoted(phrase) + tail
  {
    assert s == ['"'] + s[1..];
  }

  /** What the reader reads, the printer writes: no other text means these phrases. */
  lemma {:induction false} LexedIsPrinted(s: string)
    ensures Lex(s).Some? ==> s == Join(QuotedAll(Lex(s).value))
    decreases |s|
  {
    if s != [] && Lex(s).Some? {
      hide Doubled, LexBody, Quoted;
      var (phrase, tail) := LexBody(s[1..]).value;
      var parts := Lex(s).value;
      LexBodyIsPrinted(s[1..]);
      QuotedFront(phrase, tail, s);
      JoinedHead(parts);
      if tail != [] {
        LexedIsPrinted(tail[1..]);
        assert parts[1..] == Lex(tail[1..]).value;
        assert tail == [' '] + tail[1..];
        LexNotEmpty(tail[1..]);
      }
    }
  }

  lemma LexNotEmpty(s: string)
    requires s != [] && Lex(s).Some?
    ensures Lex(s).value != []
  {
  }

  lemma JoinNotEmpty(parts: seq<string>)
    requires parts != []
    ensures Join(QuotedAll(parts)) != []
  {
  }

  // ── what the phrases keep ──────────────────────────────────────────────

  lemma BetweenKeeps(p: char -> bool, text: string)
    requires forall c :: IsSpace(c) ==> !p(c)
    ensures PickAll(p, Between(text)) == Pick(p, text)
  {
    WordsKeep(p, text);
    JoinKeeps(p, Words(text));
    if Words(text) != [] {
      assert PickAll(p, [Join(Words(text))][1..]) == [];
    }
  }

  /** A pair of quotes goes, and each other kept character stays in its place. */
  lemma PairKeeps(p: char -> bool, s: string)
    requires (forall c :: IsSpace(c) ==> !p(c)) && FirstPair(s).Some?
    ensures var pair := FirstPair(s).value;
            && PickAll(p, Intended(s)) == Pick(p, pair.0) + Pick(p, pair.1) + PickAll(p, Intended(pair.2))
            && Pick(p, s) == Pick(p, pair.0) + Pick(p, ['"']) + Pick(p, pair.1) + Pick(p, ['"']) + Pick(p, pair.2)
  {
    hide Intended, Pick, PickAll, Words, Between;
    var pair := FirstPair(s).value;
    assert Intended(s) == Words(pair.0) + Between(pair.1) + Intended(pair.2) by { IntendedOfPair(s); }
    WordsKeep(p, pair.0);
    BetweenKeeps(p, pair.1);
    PickAllConcat(p, Words(pair.0) + Between(pair.1), Intended(pair.2));
    PickAllConcat(p, Words(pair.0), Between(pair.1));
    PickConcat(p, pair.0 + ['"'] + pair.1 + ['"'], pair.2);
    PickConcat(p, pair.0 + ['"'] + pair.1, ['"']);
    PickConcat(p, pair.0 + ['"'], pair.1);
    PickConcat(p, pair.0, ['"']);
  }

  lemma IntendedOfPair(s: string)
    requires FirstPair(s).Some?
    ensures var pair := FirstPair(s).value;
            Intended(s) == Words(pair.0) + Between(pair.1) + Intended(pair.2)
  {
  }

  /** The text of the query, in its order, is the text of the phrases. */
  lemma {:induction false} TextIsKept(s: string)
    ensures PickAll(IsText, Intended(s)) == Pick(IsText, s)
    decreases |s|
  {
    hide Pick, PickAll, Words, FirstPair;
    if FirstPair(s).None? {
      WordsKeep(IsText, s);
    } else {
      hide Intended;
      PairKeeps(IsText, s);
      TextIsKept(FirstPair(s).value.2);
      PickOne(IsText, '"');
    }
  }

  /** A quote stays in a phrase exactly when the number of quotes is odd, and then one stays. */
  lemma {:induction false} OneQuoteAtMost(s: string)
    ensures |PickAll(IsQuote, Intended(s))| == |Pick(IsQuote, s)| % 2
    decreases |s|
  {
    hide Pick, PickAll, Words, FirstPair;
    if FirstPair(s).None? {
      WordsKeep(IsQuote, s);
      UnpairedQuotes(s);
    } else {
      hide Intended;
      var pair := FirstPair(s).value;
      PairKeeps(IsQuote, s);
      OneQuoteAtMost(pair.2);
      PickNothing(IsQuote, pair.0);
      PickNothing(IsQuote, pair.1);
      PickOne(IsQuote, '"');
    }
  }

  lemma UnpairedQuotes(s: string)
    requires FirstPair(s).None?
    ensures |Pick(IsQuote, s)| <= 1
  {
    var open := FindQuote(s);
    if open.None? {
      PickNothing(IsQuote, s);
    } else {
      var n := open.value;
      assert s == s[..n] + ['"'] + s[n + 1..];
      PickConcat(IsQuote, s[..n] + ['"'], s[n + 1..]);
      PickConcat(IsQuote, s[..n], ['"']);
      PickNothing(IsQuote, s[..n]);
      PickNothing(IsQuote, s[n + 1..]);
    }
  }

  lemma {:induction false} CleanKeepsText(p: char -> bool, s: string)
    requires forall c :: IsControl(c) ==> !p(c)
    ensures Pick(p, Clean(s)) == Pick(p, s)
  {
    if s != [] {
      CleanKeepsText(p, s[1..]);
      if IsNoControl(s[0]) {
        assert Clean(s) == [s[0]] + Clean(s[1..]);
        assert Clean(s)[1..] == Clean(s[1..]);
      }
    }
  }

  /** A phrase is not empty, holds no control character, and begins with no space. */
  predicate GoodPhrase(phrase: string) {
    phrase != [] && !IsSpace(phrase[0]) && forall i :: 0 <= i < |phrase| ==> !IsControl(phrase[i])
  }

  lemma {:induction false} WordsAreGood(s: string, w: string)
    requires w in Words(s) && forall i :: 0 <= i < |s| ==> !IsControl(s[i])
    ensures GoodPhrase(w)
    decreases |s|
  {
    if IsSpace(s[0]) {
      WordsAreGood(s[1..], w);
    } else {
      var n := WordLength(s);
      if w != s[..n] {
        WordsAreGood(s[n..], w);
      }
    }
  }

  lemma {:induction false} JoinIsGood(words: seq<string>)
    requires words != [] && forall w :: w in words ==> GoodPhrase(w)
    ensures GoodPhrase(Join(words))
  {
    assert words[0] in words;
    if |words| > 1 {
      assert forall w :: w in words[1..] ==> w in words;
      JoinIsGood(words[1..]);
    }
  }

  lemma {:induction false} PhrasesAreGood(s: string, phrase: string)
    requires phrase in Intended(s) && forall i :: 0 <= i < |s| ==> !IsControl(s[i])
    ensures GoodPhrase(phrase)
    decreases |s|
  {
    var pair := FirstPair(s);
    if pair.None? {
      WordsAreGood(s, phrase);
    } else {
      var (before, inside, after) := pair.value;
      NoControlInPair(s);
      if phrase in Words(before) {
        WordsAreGood(before, phrase);
      } else if phrase in Between(inside) {
        forall w | w in Words(inside)
          ensures GoodPhrase(w)
        {
          WordsAreGood(inside, w);
        }
        JoinIsGood(Words(inside));
      } else {
        PhrasesAreGood(after, phrase);
      }
    }
  }

  lemma NoControlInPair(s: string)
    requires FirstPair(s).Some? && forall i :: 0 <= i < |s| ==> !IsControl(s[i])
    ensures var (before, inside, after) := FirstPair(s).value;
            forall text, i :: text in [before, inside, after] && 0 <= i < |text| ==> !IsControl(text[i])
  {
  }

  /**
   The printer on any input: the reader gets the intended phrases back; they hold
   the text of the input in its order, and one quote at most, when the input has
   an odd number of them; and each one is a phrase.
   */
  lemma QueryMeansItsPhrases(input: string)
    ensures var phrases := Intended(Clean(input));
            && Lex(Join(QuotedAll(phrases))) == Some(phrases)
            && PickAll(IsText, phrases) == Pick(IsText, input)
            && |PickAll(IsQuote, phrases)| == |Pick(IsQuote, input)| % 2
            && forall phrase :: phrase in phrases ==> GoodPhrase(phrase)
  {
    var cleaned := Clean(input);
    LexJoined(Intended(cleaned));
    TextIsKept(cleaned);
    OneQuoteAtMost(cleaned);
    CleanKeepsText(IsText, input);
    CleanKeepsText(IsQuote, input);
    CleanHasNoControl(input);
    forall phrase | phrase in Intended(cleaned)
      ensures GoodPhrase(phrase)
    {
      PhrasesAreGood(cleaned, phrase);
    }
  }

  lemma {:induction false} CleanHasNoControl(s: string)
    ensures forall i :: 0 <= i < |Clean(s)| ==> !IsControl(Clean(s)[i])
  {
    if s != [] {
      CleanHasNoControl(s[1..]);
      if IsNoControl(s[0]) {
        assert Clean(s) == [s[0]] + Clean(s[1..]);
      } else {
        assert Clean(s) == Clean(s[1..]);
      }
    }
  }

  // ── what a phrase is ───────────────────────────────────────────────────

  lemma {:induction false} FirstQuoteAfter(a: string, rest: string)
    requires '"' !in a
    ensures FindQuote(a + ['"'] + rest) == Some(|a|)
  {
    if a == [] {
      assert (a + ['"'] + rest)[0] == '"';
    } else {
      FirstQuoteAfter(a[1..], rest);
      assert (a + ['"'] + rest)[1..] == a[1..] + ['"'] + rest;
    }
  }

  /** The words before a pair of quotes, the text between, and so on after it. */
  lemma IntendedAroundPair(before: string, inside: string, after: string)
    requires '"' !in before && '"' !in inside
    ensures Intended(before + ['"'] + (inside + ['"'] + after)) == Words(before) + Between(inside) + Intended(after)
  {
    hide Words, Between;
    var s := before + ['"'] + (inside + ['"'] + after);
    FirstQuoteAfter(before, inside + ['"'] + after);
    FirstQuoteAfter(inside, after);
    assert s[|before| + 1..] == inside + ['"'] + after;
    assert FirstPair(s) == Some((before, inside, after)) by {
      assert s[..|before|] == before;
      assert (inside + ['"'] + after)[..|inside|] == inside;
      assert (inside + ['"'] + after)[|inside| + 1..] == after;
    }
    IntendedOfPair(s);
  }

  predicate NoSpace(text: string) {
    forall i :: 0 <= i < |text| ==> !IsSpace(text[i])
  }

  /** Each space of the text is one blank with a word on both sides. */
  predicate OneSpaced(text: string) {
    forall i :: 0 <= i < |text| && IsSpace(text[i]) ==>
      text[i] == ' ' && 0 < i < |text| - 1 && !IsSpace(text[i - 1]) && !IsSpace(text[i + 1])
  }

  lemma WordHasNoSpace(text: string, w: string)
    requires w in Words(text)
    ensures w != [] && NoSpace(w)
  {
    WordsHaveNoSpace(text, w);
  }

  /** A text with no space is one word. */
  lemma WordsOfWord(w: string)
    requires w != [] && NoSpace(w)
    ensures Words(w) == [w]
  {
    assert WordLength(w) == |w|;
    assert w[..|w|] == w && w[|w|..] == [];
  }

  lemma WordsStep(s: string)
    requires s != []
    ensures Words(s) == if IsSpace(s[0]) then Words(s[1..]) else [s[..WordLength(s)]] + Words(s[WordLength(s)..])
  {
  }

  lemma WordLengthAtSpace(a: string, c: char, b: string)
    requires IsSpace(c)
    ensures WordLength(a + [c] + b) == WordLength(a)
  {
    hide IsSpace, WordLength;
    var s := a + [c] + b;
    assert forall i :: 0 <= i < |a| ==> s[i] == a[i];
    assert s[|a|] == c;
    var n := WordLength(a);
    if n < |a| {
      assert s[n] == a[n];
    }
  }

  /** A space divides the words before it from those after it. */
  lemma {:induction false} WordsAtSpace(a: string, c: char, b: string)
    requires IsSpace(c)
    ensures Words(a + [c] + b) == Words(a) + Words(b)
    decreases |a|
  {
    hide Words, IsSpace, WordLength;
    var s := a + [c] + b;
    WordsStep(s);
    if a == [] {
      assert s[0] == c && s[1..] == b;
      assert Words([]) == [] by { NoWords(); }
    } else {
      WordsStep(a);
      assert s[0] == a[0];
      if IsSpace(a[0]) {
        WordsAtSpace(a[1..], c, b);
        assert s[1..] == a[1..] + [c] + b;
      } else {
        var n := WordLength(a);
        WordLengthAtSpace(a, c, b);
        assert n > 0;
        WordsAtSpace(a[n..], c, b);
        assert s[..n] == a[..n] && s[n..] == a[n..] + [c] + b;
      }
    }
  }

  lemma NoWords()
    ensures Words([]) == []
  {
  }

  /** The words of joined words are those words, with one blank between two. */
  lemma {:induction false} WordsOfJoined(words: seq<string>)
    requires forall i :: 0 <= i < |words| ==> words[i] != [] && NoSpace(words[i])
    ensures Words(Join(words)) == words && OneSpaced(Join(words))
    ensures words != [] ==> Join(words) != [] && !IsSpace(Join(words)[0])
  {
    if words == [] {
    } else if |words| == 1 {
      WordsOfWord(words[0]);
    } else {
      WordsOfJoined(words[1..]);
      WordsOfWord(words[0]);
      WordsAtSpace(words[0], ' ', Join(words[1..]));
      assert Join(words) == words[0] + [' '] + Join(words[1..]);
      assert words == [words[0]] + words[1..];
    }
  }

  lemma {:induction false} SpacesAreNoWord(text: string)
    ensures Words(text) == [] <==> forall i :: 0 <= i < |text| ==> IsSpace(text[i])
    decreases |text|
  {
    if text != [] && IsSpace(text[0]) {
      SpacesAreNoWord(text[1..]);
      assert text == [text[0]] + text[1..];
    }
  }

  /**
   Text in quotes is one phrase, whatever stands before it with no quote and
   whatever stands after it: the words of the text with one blank between two.
   A text of spaces gives no phrase.
   */
  lemma QuotedTextIsOnePhrase(before: string, inside: string, after: string)
    requires '"' !in before && '"' !in inside
    ensures var phrases := Intended(before + ['"'] + (inside + ['"'] + after));
            if forall i :: 0 <= i < |inside| ==> IsSpace(inside[i]) then phrases == Words(before) + Intended(after)
            else exists phrase :: phrases == Words(before) + [phrase] + Intended(after) &&
                                  Words(phrase) == Words(inside) && OneSpaced(phrase)
  {
    hide Words, Intended, Join, OneSpaced, IsSpace, NoSpace;
    IntendedAroundPair(before, inside, after);
    SpacesAreNoWord(inside);
    forall i | 0 <= i < |Words(inside)|
      ensures Words(inside)[i] != [] && NoSpace(Words(inside)[i])
    {
      WordHasNoSpace(inside, Words(inside)[i]);
    }
    WordsOfJoined(Words(inside));
    var phrase := Join(Words(inside));
    assert Words(inside) != [] ==> Between(inside) == [phrase];
  }

  /** With one quote or none, each word is a phrase. */
  lemma UnquotedTextIsWords(text: string)
    requires forall i, j :: 0 <= i < j < |text| ==> text[i] != '"' || text[j] != '"'
    ensures Intended(text) == Words(text)
  {
    assert FirstPair(text).None?;
  }

  /** The cleaning drops each character of U+0000 to U+001F and U+007F to U+009F, and no other. */
  lemma CleanDropsExactly(a: string, c: char, b: string)
    ensures Clean(a + [c] + b) ==
            Clean(a) + (if c as int < 0x20 || 0x7F <= c as int < 0xA0 then [] else [c]) + Clean(b)
  {
    PickConcat(IsNoControl, a + [c], b);
    PickConcat(IsNoControl, a, [c]);
    PickOne(IsNoControl, c);
  }

  /** A word has a character, and no character of it is a space. */
  lemma {:induction false} WordsHaveNoSpace(s: string, w: string)
    requires w in Words(s)
    ensures w != [] && forall i :: 0 <= i < |w| ==> !IsSpace(w[i])
    decreases |s|
  {
    if IsSpace(s[0]) {
      WordsHaveNoSpace(s[1..], w);
    } else if w != s[..WordLength(s)] {
      WordsHaveNoSpace(s[WordLength(s)..], w);
    }
  }
}
