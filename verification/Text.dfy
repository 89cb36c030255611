/** Splitting text into tokens. */
module Text {
  import opened StableSort

  predicate IsSpace(c: char) {
    || c == ' ' || '\t' <= c <= '\r' || c == '\U{0085}' || c == '\U{00A0}' || c == '\U{1680}'
    || '\U{2000}' <= c <= '\U{200A}' || c == '\U{2028}' || c == '\U{2029}'
    || c == '\U{202F}' || c == '\U{205F}' || c == '\U{3000}'
  }

  /** The punctuation the recommender turns into spaces. */
  const LIST_MARKS: string := ",;\U{FF0C}\U{3001}\U{00B7}\U{FF1B}"

  /** The punctuation the document index turns into spaces. */
  const TEXT_MARKS: string := ",;!?\n\U{FF0C}\U{3001}\U{00B7}\U{FF1B}\U{FF08}\U{FF09}\U{3002}"

  /** The replacer: every mark becomes a space. */
  function Spaced(s: string, marks: string): (t: string)
    ensures |t| == |s| && forall i :: 0 <= i < |s| ==> t[i] == if s[i] in marks then ' ' else s[i]
  {
    seq(|s|, i requires 0 <= i < |s| => if s[i] in marks then ' ' else s[i])
  }

  predicate AllSpace(s: string) { forall i :: 0 <= i < |s| ==> IsSpace(s[i]) }

  predicate NoSpace(s: string) { forall i :: 0 <= i < |s| ==> !IsSpace(s[i]) }

  /** Length of the longest prefix without white space. */
  function WordLength(s: string): (n: nat)
    ensures n <= |s| && NoSpace(s[..n])
    ensures n < |s| ==> IsSpace(s[n])
  {
    if s == "" || IsSpace(s[0]) then 0
    else
      var n := WordLength(s[1..]);
      assert s[..n + 1] == [s[0]] + s[1..][..n];
      n + 1
  }

  /** `strings.Fields`: the maximal runs without white space. */
  function Words(s: string): (ws: seq<string>)
    ensures forall i :: 0 <= i < |ws| ==> ws[i] != "" && NoSpace(ws[i])
    decreases |s|
  {
    if s == "" then []
    else if IsSpace(s[0]) then Words(s[1..])
    else
      var n := WordLength(s);
      [s[..n]] + Words(s[n..])
  }

  // ---- Words are what lies between the gaps ----

  /** Gap, word, gap, word, and so on to the last gap. */
  function Weave(gaps: seq<string>, ws: seq<string>): string
    requires |gaps| == |ws| + 1
  {
    if ws == [] then gaps[0] else gaps[0] + ws[0] + Weave(gaps[1..], ws[1..])
  }

  /** White space in every gap, and some of it between two neighbouring words. */
  predicate Separating(gaps: seq<string>) {
    && (forall i :: 0 <= i < |gaps| ==> AllSpace(gaps[i]))
    && (forall i :: 0 < i < |gaps| - 1 ==> gaps[i] != "")
  }

  /** `gaps` around the words make up the text, and it begins with white space exactly if its first gap is not empty. */
  predicate Splits(gaps: seq<string>, ws: seq<string>, s: string) {
    && |gaps| == |ws| + 1 && Separating(gaps) && Weave(gaps, ws) == s
    && (gaps[0] != "" <==> s != "" && IsSpace(s[0]))
  }

  lemma SplitsSpace(c: char, gaps: seq<string>, ws: seq<string>, s: string)
    requires Splits(gaps, ws, s) && IsSpace(c)
    ensures Splits([[c] + gaps[0]] + gaps[1..], ws, [c] + s)
  {
    hide IsSpace;
    var longer := [[c] + gaps[0]] + gaps[1..];
    assert longer[1..] == gaps[1..];
    if ws != [] {
      assert [c] + gaps[0] + ws[0] + Weave(gaps[1..], ws[1..]) == [c] + (gaps[0] + ws[0] + Weave(gaps[1..], ws[1..]));
    }
  }

  lemma SplitsWord(w: string, gaps: seq<string>, ws: seq<string>, s: string)
    requires Splits(gaps, ws, s) && w != "" && NoSpace(w)
    requires if s == "" then ws == [] else IsSpace(s[0])
    ensures Splits([""] + gaps, [w] + ws, w + s)
  {
    hide IsSpace;
    assert ([""] + gaps)[1..] == gaps && ([w] + ws)[1..] == ws;
    assert "" + w + Weave(gaps, ws) == w + s;
    assert (w + s)[0] == w[0];
  }

  lemma SplitsNothing()
    ensures Splits([""], [], "")
  {
  }

  /** The text is its words with white space around them and between every two of them. */
  lemma {:induction false} WordsSplitText(s: string) returns (gaps: seq<string>)
    ensures Splits(gaps, Words(s), s)
    decreases |s|
  {
    hide IsSpace, Splits, NoSpace;
    if s == "" {
      gaps := [""];
      SplitsNothing();
    } else if IsSpace(s[0]) {
      gaps := WordsSplitText(s[1..]);
      HasFirst(gaps, Words(s[1..]), s[1..]);
      SplitsSpace(s[0], gaps, Words(s[1..]), s[1..]);
      gaps := [[s[0]] + gaps[0]] + gaps[1..];
      assert [s[0]] + s[1..] == s;
    } else {
      var n := WordLength(s);
      gaps := WordsSplitText(s[n..]);
      SplitsWord(s[..n], gaps, Words(s[n..]), s[n..]);
      gaps := [""] + gaps;
      assert s[..n] + s[n..] == s;
    }
  }

  lemma HasFirst(gaps: seq<string>, ws: seq<string>, s: string)
    requires Splits(gaps, ws, s)
    ensures gaps != []
  {
  }

  // ---- Without repeats ----

  /** The list without later repeats. */
  function Dedup(xs: seq<string>): (ys: seq<string>)
    ensures forall y :: y in ys <==> y in xs
    ensures forall i, j :: 0 <= i < j < |ys| ==> ys[i] != ys[j]
  {
    if xs == [] then []
    else
      var ys := Dedup(xs[..|xs| - 1]);
      var last := xs[|xs| - 1];
      assert xs == xs[..|xs| - 1] + [last];
      if last in ys then ys else ys + [last]
  }

  /** `dedupStrings`, and the second half of both tokenizers. */
  method DedupStrings(list: seq<string>) returns (out: seq<string>)
    ensures out == Dedup(list)
  {
    out := [];
    var seen: set<string> := {};
    for i := 0 to |list|
      invariant out == Dedup(list[..i])
      invariant seen == set x | x in list[..i]
    {
      assert list[..i + 1][..i] == list[..i] && list[..i + 1] == list[..i] + [list[i]];
      if list[i] !in seen {
        seen := seen + {list[i]};
        out := out + [list[i]];
      }
    }
    assert list[..|list|] == list;
  }

  function Joined(parts: seq<string>): string {
    if parts == [] then "" else Joined(parts[..|parts| - 1]) + parts[|parts| - 1]
  }

  // ---- The recommender's tokens ----

  function ListTokens(s: string): seq<string> { Dedup(Words(Spaced(s, LIST_MARKS))) }

  // ---- The document index's tokens ----

  /** `strings.ToLower`, over whatever the lower case of a character is. */
  function Lowered(s: string, lower: char -> char): (t: string)
    ensures |t| == |s| && forall i :: 0 <= i < |s| ==> t[i] == lower(s[i])
  {
    seq(|s|, i requires 0 <= i < |s| => lower(s[i]))
  }

  predicate Alphanumeric(c: char) { 'a' <= c <= 'z' || '0' <= c <= '9' }

  predicate Single(c: char) { !Alphanumeric(c) && !IsSpace(c) }

  /** One-character tokens: everything but lower-case ASCII letters, digits and white space. */
  function Singles(s: string): seq<string> {
    if s == "" then []
    else
      var n := |s| - 1;
      Singles(s[..n]) + (if Single(s[n]) then [[s[n]]] else [])
  }

  function Utf8Length(s: string): nat {
    if s == "" then 0
    else
      var c := s[0] as int;
      (if c < 0x80 then 1 else if c < 0x800 then 2 else if c < 0x10000 then 3 else 4) + Utf8Length(s[1..])
  }

  const MAX_TOKEN_BYTES := 40

  predicate Fits(part: string) { Utf8Length(part) <= MAX_TOKEN_BYTES }

  function Short(parts: seq<string>): seq<string> {
    if parts == [] then []
    else
      var n := |parts| - 1;
      Short(parts[..n]) + (if Fits(parts[n]) then [parts[n]] else [])
  }

  function ShortDistinct(parts: seq<string>): seq<string> { Dedup(Short(parts)) }

  /** Words, then single characters, at most 40 bytes each, without repeats. */
  function TextTokens(s: string, lower: char -> char): seq<string> {
    var t := Lowered(Spaced(s, TEXT_MARKS), lower);
    ShortDistinct(Words(t) + Singles(t))
  }

  lemma {:induction false} ShortMembers(parts: seq<string>, p: string)
    ensures p in Short(parts) <==> p in parts && Fits(p)
  {
    if parts != [] {
      var n := |parts| - 1;
      assert parts == parts[..n] + [parts[n]];
      ShortMembers(parts[..n], p);
    }
  }

  lemma {:induction false} SinglesMembers(s: string, p: string)
    ensures p in Singles(s) <==> |p| == 1 && p[0] in s && Single(p[0])
  {
    hide Single;
    if s != "" {
      var n := |s| - 1;
      assert s == s[..n] + [s[n]];
      SinglesMembers(s[..n], p);
      if |p| == 1 && p[0] == s[n] { assert p == [s[n]]; }
    }
  }

  /**
   Tokens do not repeat; they are the words and the single non-alphanumeric characters of the
   lower-case text that fit.
   */
  lemma TextTokensAre(s: string, lower: char -> char)
    ensures Distinct(TextTokens(s, lower))
    ensures var t := Lowered(Spaced(s, TEXT_MARKS), lower);
            forall p :: p in TextTokens(s, lower)
              <==> Utf8Length(p) <= 40 && (p in Words(t) || (|p| == 1 && p[0] in t && Single(p[0])))
  {
    hide Words, Singles, Short, Single, Lowered, Spaced, Utf8Length;
    var t := Lowered(Spaced(s, TEXT_MARKS), lower);
    forall p
      ensures p in TextTokens(s, lower) <==> Fits(p) && (p in Words(t) || (|p| == 1 && p[0] in t && Single(p[0])))
    {
      ShortMembers(Words(t) + Singles(t), p);
      SinglesMembers(t, p);
    }
  }

  /** The inner `add`: keeps a part that is short enough and not yet seen. */
  method AddToken(out: seq<string>, seen: set<string>, part: string) returns (out': seq<string>, seen': set<string>)
    requires seen == set x | x in out
    ensures out' == if Fits(part) && part !in out then out + [part] else out
    ensures seen' == set x | x in out'
  {
    out', seen' := out, seen;
    if part !in seen && Fits(part) {
      seen' := seen + {part};
      out' := out + [part];
    }
  }

  lemma DedupAppend(xs: seq<string>, x: string)
    ensures Dedup(xs + [x]) == if x in Dedup(xs) then Dedup(xs) else Dedup(xs) + [x]
  {
    assert (xs + [x])[..|xs|] == xs;
  }

  lemma ShortAppend(parts: seq<string>, part: string)
    ensures Short(parts + [part]) == if Fits(part) then Short(parts) + [part] else Short(parts)
  {
    hide Fits;
    assert (parts + [part])[..|parts|] == parts;
  }

  lemma OneMorePart(parts: seq<string>, part: string)
    ensures ShortDistinct(parts + [part])
        == if Fits(part) && part !in ShortDistinct(parts) then ShortDistinct(parts) + [part] else ShortDistinct(parts)
  {
    hide Fits, Dedup, Short;
    ShortAppend(parts, part);
    if Fits(part) { DedupAppend(Short(parts), part); }
  }

  lemma OneMoreSingle(words: seq<string>, t: string, i: nat)
    requires i < |t|
    ensures words + Singles(t[..i + 1])
        == if Single(t[i]) then words + Singles(t[..i]) + [[t[i]]] else words + Singles(t[..i])
  {
    hide Single;
    assert t[..i + 1][..i] == t[..i];
  }

  /** The document tokenizer: one pass over the words, one over the characters. */
  method Tokenize(s: string, lower: char -> char) returns (out: seq<string>)
    ensures out == TextTokens(s, lower)
  {
    hide Fits, ShortDistinct, Short, Single, Singles, Words;
    var t := Lowered(Spaced(s, TEXT_MARKS), lower);
    var words := Words(t);
    out := [];
    var seen: set<string> := {};
    EmptyTokens(t, words);
    for i := 0 to |words|
      invariant out == ShortDistinct(words[..i]) && seen == set x | x in out
    {
      assert words[..i + 1] == words[..i] + [words[i]];
      OneMorePart(words[..i], words[i]);
      out, seen := AddToken(out, seen, words[i]);
    }
    assert words[..|words|] == words;
    for i := 0 to |t|
      invariant out == ShortDistinct(words + Singles(t[..i])) && seen == set x | x in out
    {
      OneMoreSingle(words, t, i);
      OneMorePart(words + Singles(t[..i]), [t[i]]);
      if Single(t[i]) { out, seen := AddToken(out, seen, [t[i]]); }
    }
    assert t[..|t|] == t;
  }

  lemma EmptyTokens(t: string, words: seq<string>)
    ensures ShortDistinct(words[..0]) == [] && words + Singles(t[..0]) == words
  {
  }
}
