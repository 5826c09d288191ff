/** The string operations the framework's command handling is built on, over Unicode characters. */
module Text {

  /** White space as Unicode defines the property of that name. */
  predicate IsSpace(c: char) {
    || '\t' <= c <= '\r' || c == ' ' || c == '\U{85}' || c == '\U{A0}' || c == '\U{1680}'
    || '\U{2000}' <= c <= '\U{200A}' || c == '\U{2028}' || c == '\U{2029}'
    || c == '\U{202F}' || c == '\U{205F}' || c == '\U{3000}'
  }

  /** The code points: the tab to the carriage return, the spaces, and the line and paragraph separators. */
  lemma SpaceCodePoints(c: char)
    ensures IsSpace(c) <==>
      var n := c as int;
      9 <= n <= 13 || 0x2000 <= n <= 0x200A || n in {0x20, 0x85, 0xA0, 0x1680, 0x2028, 0x2029, 0x202F, 0x205F, 0x3000}
  {
  }

  predicate HasPrefix(s: string, prefix: string) {
    prefix <= s
  }

  predicate HasSuffix(s: string, suffix: string) {
    |suffix| <= |s| && s[|s| - |suffix|..] == suffix
  }

  function TrimLeft(s: string): string {
    if s != "" && IsSpace(s[0]) then TrimLeft(s[1..]) else s
  }

  function TrimRight(s: string): string {
    if s != "" && IsSpace(s[|s| - 1]) then TrimRight(s[..|s| - 1]) else s
  }

  function TrimSpace(s: string): string {
    TrimRight(TrimLeft(s))
  }

  /** The length of the longest prefix without white space. */
  function WordLength(s: string): (n: nat)
    ensures n <= |s|
    ensures forall k :: 0 <= k < n ==> !IsSpace(s[k])
    ensures n < |s| ==> IsSpace(s[n])
  {
    if s == "" || IsSpace(s[0]) then 0 else 1 + WordLength(s[1..])
  }

  /** The maximal runs of characters that are not white space. */
  function Fields(s: string): seq<string> {
    if s == "" then []
    else if IsSpace(s[0]) then Fields(s[1..])
    else [s[..WordLength(s)]] + Fields(s[WordLength(s)..])
  }

  /** The pieces between the occurrences of `sep`. */
  function Split(s: string, sep: char): seq<string> {
    if sep !in s then [s]
    else [s[..Index(s, sep)]] + Split(s[Index(s, sep) + 1..], sep)
  }

  function Index(s: string, c: char): (n: nat)
    requires c in s
    ensures n < |s| && s[n] == c && c !in s[..n]
  {
    if s[0] == c then 0 else 1 + Index(s[1..], c)
  }

  function Join(parts: seq<string>, sep: string): string {
    if parts == [] then ""
    else if |parts| == 1 then parts[0]
    else parts[0] + sep + Join(parts[1..], sep)
  }

  predicate IsWord(s: string) {
    s != "" && forall c :: c in s ==> !IsSpace(c)
  }

  predicate AreWords(parts: seq<string>) {
    forall p :: p in parts ==> IsWord(p)
  }

  function NormalizeWhitespace(s: string): string {
    Join(Fields(s), " ")
  }

  /** Whether a message's first token is taken for a mention of the bot. */
  predicate IsMention(token: string) {
    HasPrefix(token, "<@") || HasPrefix(token, "@")
  }

  /** Normalises white space and drops a leading mention, unless it is all there is. */
  function FilterAt(raw: string): string {
    var text := NormalizeWhitespace(raw);
    var args := Split(text, ' ');
    if |args| < 2 then text
    else if IsMention(args[0]) then Join(args[1..], " ")
    else text
  }

  // ---------------------------------------------------------------- tokens

  lemma {:induction false} FieldsAreWords(s: string)
    ensures AreWords(Fields(s))
  {
    if s == "" {
    } else if IsSpace(s[0]) {
      FieldsAreWords(s[1..]);
    } else {
      FieldsAreWords(s[WordLength(s)..]);
    }
  }

  lemma {:induction false} WordLengthOf(word: string, rest: string)
    requires IsWord(word) && (rest == "" || IsSpace(rest[0]))
    ensures WordLength(word + rest) == |word|
    decreases |word|
  {
    var s := word + rest;
    assert forall k :: 0 <= k < |word| ==> s[k] == word[k] && word[k] in word;
    if rest != "" {
      assert s[|word|] == rest[0];
    }
  }

  /** Words joined by single spaces are found again. */
  lemma {:induction false} FieldsOfJoin(parts: seq<string>)
    requires AreWords(parts)
    ensures Fields(Join(parts, " ")) == parts
  {
    if parts == [] {
    } else if |parts| == 1 {
      assert parts[0] + "" == parts[0];
      WordLengthOf(parts[0], "");
      assert parts[0][0] in parts[0];
      assert parts == [parts[0]];
    } else {
      var w, rest := parts[0], " " + Join(parts[1..], " ");
      var s := Join(parts, " ");
      assert s == w + rest;
      WordLengthOf(w, rest);
      assert s[..|w|] == w && s[|w|..] == rest;
      assert rest[1..] == Join(parts[1..], " ");
      FieldsOfJoin(parts[1..]);
      assert s[0] == w[0] && w[0] in w;
      assert Fields(rest) == Fields(rest[1..]);
    }
  }

  lemma {:induction false} IndexAfter(word: string, sep: char, rest: string)
    requires sep !in word
    ensures Index(word + [sep] + rest, sep) == |word|
  {
    if word != "" {
      assert (word + [sep] + rest)[1..] == word[1..] + [sep] + rest;
      IndexAfter(word[1..], sep, rest);
    }
  }

  lemma JoinStep(parts: seq<string>, sep: string)
    requires parts != []
    ensures Join(parts, sep) == if |parts| == 1 then parts[0] else parts[0] + sep + Join(parts[1..], sep)
  {
  }

  lemma SplitNowhere(s: string, sep: char)
    requires sep !in s
    ensures Split(s, sep) == [s]
  {
  }

  lemma SplitAfter(word: string, sep: char, rest: string)
    requires sep !in word
    ensures Split(word + [sep] + rest, sep) == [word] + Split(rest, sep)
  {
    IndexAfter(word, sep, rest);
    hide Index;
    var s := word + [sep] + rest;
    assert s[|word|] == sep;
    assert s[..|word|] == word && s[|word| + 1..] == rest;
  }

  /** Pieces joined by a separator that occurs in none of them are found again. */
  lemma {:induction false} SplitOfSeparated(parts: seq<string>, sep: char)
    requires parts != [] && forall p :: p in parts ==> sep !in p
    ensures Split(Join(parts, [sep]), sep) == parts
  {
    hide Split, Join;
    JoinStep(parts, [sep]);
    assert parts[0] in parts && parts == [parts[0]] + parts[1..];
    if |parts| == 1 {
      SplitNowhere(parts[0], sep);
    } else {
      SplitOfSeparated(parts[1..], sep);
      SplitAfter(parts[0], sep, Join(parts[1..], [sep]));
    }
  }

  /** Splitting a normalised text at spaces gives its words, or one empty piece for an empty text. */
  lemma SplitOfJoin(parts: seq<string>)
    requires AreWords(parts)
    ensures Split(Join(parts, " "), ' ') == if parts == [] then [""] else parts
  {
    if parts != [] {
      forall p | p in parts ensures ' ' !in p {
        assert IsWord(p);
      }
      SplitOfSeparated(parts, ' ');
    }
  }

  /** What `FilterAt` does, on tokens. */
  function FilterTokens(tokens: seq<string>): seq<string> {
    if |tokens| >= 2 && IsMention(tokens[0]) then tokens[1..] else tokens
  }

  lemma FilterAtOnTokens(raw: string)
    ensures FilterAt(raw) == Join(FilterTokens(Fields(raw)), " ")
    ensures Fields(FilterAt(raw)) == FilterTokens(Fields(raw))
    ensures Split(FilterAt(raw), ' ') == if Fields(raw) == [] then [""] else FilterTokens(Fields(raw))
  {
    var tokens := Fields(raw);
    FieldsAreWords(raw);
    SplitOfJoin(tokens);
    FieldsOfJoin(FilterTokens(tokens));
    SplitOfJoin(FilterTokens(tokens));
  }

  lemma {:induction false} FieldsOfTrimLeft(s: string)
    ensures Fields(TrimLeft(s)) == Fields(s)
  {
    if s != "" && IsSpace(s[0]) {
      FieldsOfTrimLeft(s[1..]);
    }
  }

  lemma FieldsBehindSpace(s: string)
    requires s != "" && IsSpace(s[0])
    ensures Fields(s) == Fields(s[1..])
  {
  }

  lemma FieldsBehindWord(s: string)
    requires s != "" && !IsSpace(s[0])
    ensures WordLength(s) > 0 && Fields(s) == [s[..WordLength(s)]] + Fields(s[WordLength(s)..])
  {
  }

  lemma {:induction false} FieldsDropLastSpace(s: string)
    requires s != "" && IsSpace(s[|s| - 1])
    ensures Fields(s[..|s| - 1]) == Fields(s)
    decreases |s|
  {
    hide Fields, IsSpace, WordLength;
    var init := s[..|s| - 1];
    if IsSpace(s[0]) {
      FieldsBehindSpace(s);
      if |s| == 1 {
        assert s[1..] == init;
      } else {
        FieldsBehindSpace(init);
        FieldsDropLastSpace(s[1..]);
        assert s[1..][..|s| - 2] == init[1..];
      }
    } else {
      var n := WordLength(s);
      FieldsBehindWord(s);
      WordLengthOfInit(s);
      FieldsBehindWord(init);
      FieldsDropLastSpace(s[n..]);
      assert init[..n] == s[..n] && s[n..][..|s| - n - 1] == init[n..];
    }
  }

  lemma {:induction false} WordLengthOfInit(s: string)
    requires s != "" && IsSpace(s[|s| - 1])
    ensures WordLength(s[..|s| - 1]) == WordLength(s) < |s|
  {
    hide IsSpace;
    if !IsSpace(s[0]) {
      WordLengthOfInit(s[1..]);
      assert s[..|s| - 1][1..] == s[1..][..|s| - 2];
    }
  }

  lemma {:induction false} FieldsOfTrimRight(s: string)
    ensures Fields(TrimRight(s)) == Fields(s)
    decreases |s|
  {
    if s != "" && IsSpace(s[|s| - 1]) {
      FieldsDropLastSpace(s);
      FieldsOfTrimRight(s[..|s| - 1]);
    }
  }

  lemma FieldsOfTrimSpace(s: string)
    ensures Fields(TrimSpace(s)) == Fields(s)
  {
    FieldsOfTrimLeft(s);
    FieldsOfTrimRight(TrimLeft(s));
  }

  /** A text is blank exactly when it has no words. */
  lemma {:induction false} BlankHasNoFields(s: string)
    ensures TrimSpace(s) == "" <==> Fields(s) == []
  {
    if s != "" && IsSpace(s[0]) {
      BlankHasNoFields(s[1..]);
    } else if s != "" {
      TrimRightKeeps(s);
    }
  }

  lemma {:induction false} TrimRightKeeps(s: string)
    requires s != "" && !IsSpace(s[0])
    ensures TrimRight(s) != ""
    decreases |s|
  {
    if IsSpace(s[|s| - 1]) {
      TrimRightKeeps(s[..|s| - 1]);
    }
  }

  // ---------------------------------------------------------------- trimming

  lemma {:induction false} TrimLeftEnd(s: string) returns (a: string)
    ensures s == a + TrimLeft(s) && (TrimLeft(s) == "" || !IsSpace(TrimLeft(s)[0]))
  {
    a := "";
    if s != "" && IsSpace(s[0]) {
      a := TrimLeftEnd(s[1..]);
      a := [s[0]] + a;
    }
  }

  lemma {:induction false} TrimRightEnd(s: string) returns (b: string)
    ensures s == TrimRight(s) + b && (TrimRight(s) == "" || !IsSpace(TrimRight(s)[|TrimRight(s)| - 1]))
  {
    b := "";
    if s != "" && IsSpace(s[|s| - 1]) {
      b := TrimRightEnd(s[..|s| - 1]);
      b := b + [s[|s| - 1]];
    }
  }

  predicate HasNoOuterSpace(s: string) {
    s == "" || (!IsSpace(s[0]) && !IsSpace(s[|s| - 1]))
  }

  lemma FixedByTrimming(s: string)
    ensures TrimSpace(s) == s <==> HasNoOuterSpace(s)
  {
    var a := TrimLeftEnd(s);
    var b := TrimRightEnd(TrimLeft(s));
    assert |TrimSpace(s)| + |a| + |b| == |s|;
  }

  lemma Regrouped(a: string, t: string, b: string)
    ensures a + (t + b) == a + t + b
  {
  }

  /** What trimming cuts out of a text lies in it without a gap. */
  lemma TrimIsInside(s: string) returns (a: string, b: string)
    ensures s == a + TrimSpace(s) + b && HasNoOuterSpace(TrimSpace(s))
  {
    a := TrimLeftEnd(s);
    b := TrimRightEnd(TrimLeft(s));
    var l, t := TrimLeft(s), TrimSpace(s);
    assert t == TrimRight(l);
    hide TrimLeft, TrimRight, TrimSpace, IsSpace;
    Regrouped(a, t, b);
    if t != "" {
      assert (t + b)[0] == t[0];
    }
  }

  /** Trimming is done once and for all. */
  lemma TrimTwice(s: string)
    ensures TrimSpace(TrimSpace(s)) == TrimSpace(s)
  {
    var a, b := TrimIsInside(s);
    FixedByTrimming(TrimSpace(s));
  }
}
