/**
  The two string transforms of `src/libs.ts`: `replaceCodeBlock`, which turns fenced
  PlantUML code blocks into `{% uml %}` blocks, and `makeHtml`, which embeds a rendered
  image as a base 64 data URL inside a `<figure>`.
 */
module Libs {
  import opened Common
  import Base64

  // ---------------------------------------------------------------------------
  // replaceCodeBlock: the regular expression /```(?:uml|puml|plantuml)\s+([\s\S]*?)```/gim,
  // read as a scanner over positions of the markdown text.
  // ---------------------------------------------------------------------------

  /** A code fence (three backticks) starts at index `i` of `s`. */
  predicate FenceAt(s: string, i: int)
  {
    0 <= i && i + 3 <= |s| && s[i] == '`' && s[i + 1] == '`' && s[i + 2] == '`'
  }

  /** No code fence starts at any index in `[lo, hi)`. */
  predicate NoFence(s: string, lo: int, hi: int)
  {
    forall i | lo <= i < hi :: !FenceAt(s, i)
  }

  /** The `\s` class of ECMAScript regular expressions: its WhiteSpace and LineTerminator code points. */
  predicate IsSpace(ch: char)
  {
    var n := ch as int;
    || 0x09 <= n <= 0x0D
    || n == 0x20 || n == 0xA0 || n == 0x1680
    || 0x2000 <= n <= 0x200A
    || n == 0x2028 || n == 0x2029 || n == 0x202F || n == 0x205F || n == 0x3000 || n == 0xFEFF
  }

  /** Every character at an index in `[lo, hi)` is whitespace. */
  predicate AllSpace(s: string, lo: int, hi: int)
  {
    forall i | lo <= i < hi :: 0 <= i < |s| && IsSpace(s[i])
  }

  /**
    The `i` flag without `u`, as far as the ASCII keywords need it: an ASCII letter
    matches either case of itself, and no non-ASCII character folds onto an ASCII letter.
   */
  function FoldCase(ch: char): char
  {
    if 'A' <= ch <= 'Z' then (ch as int + 32) as char else ch
  }

  /** The alternatives of the language group, in the order the expression tries them. */
  const Keywords: seq<string> := ["uml", "puml", "plantuml"]

  /** The lower-case word `kw` appears at index `i` of `s`, up to ASCII case. */
  predicate KeywordAt(s: string, i: nat, kw: string)
  {
    i + |kw| <= |s| && forall j | 0 <= j < |kw| :: FoldCase(s[i + j]) == kw[j]
  }

  /** Length of the language keyword at index `i`, or 0 when there is none. */
  function KeywordLength(s: string, i: nat): (n: nat)
    ensures n != 0 ==> i + n <= |s|
  {
    if KeywordAt(s, i, "uml") then 3
    else if KeywordAt(s, i, "puml") then 4
    else if KeywordAt(s, i, "plantuml") then 8
    else 0
  }

  /** Length of the run of whitespace starting at index `i` (the greedy `\s+`). */
  function SpaceRun(s: string, i: nat): (n: nat)
    requires i <= |s|
    ensures i + n <= |s|
    ensures i + n == |s| || !IsSpace(s[i + n])
    decreases |s| - i
  {
    if i < |s| && IsSpace(s[i]) then 1 + SpaceRun(s, i + 1) else 0
  }

  /** The whole run is whitespace. */
  lemma {:induction false} SpaceRunAllSpace(s: string, i: nat)
    requires i <= |s|
    ensures AllSpace(s, i, i + SpaceRun(s, i))
    decreases |s| - i
  {
    if i < |s| && IsSpace(s[i]) {
      SpaceRunAllSpace(s, i + 1);
    }
  }

  /** Index of the first code fence at or after `i` (the lazy `[\s\S]*?` followed by the closing fence). */
  function FindFence(s: string, i: nat): (r: Option<nat>)
    requires i <= |s|
    ensures r.Some? ==> i <= r.value && FenceAt(s, r.value)
    decreases |s| - i
  {
    if i + 3 > |s| then None
    else if FenceAt(s, i) then Some(i)
    else FindFence(s, i + 1)
  }

  /** No fence starts before the one found, and none at all when none is found. */
  lemma {:induction false} FindFenceFirst(s: string, i: nat)
    requires i <= |s|
    ensures FindFence(s, i).Some? ==> NoFence(s, i, FindFence(s, i).value)
    ensures FindFence(s, i).None? ==> NoFence(s, i, |s|)
    decreases |s| - i
  {
    if i + 3 <= |s| && !FenceAt(s, i) {
      FindFenceFirst(s, i + 1);
    }
  }

  /** A match: the captured body and the number of characters it consumes. */
  datatype Match = Match(body: string, length: nat)

  /** The one attempt the expression makes at index `i` of `s`. */
  function MatchAt(s: string, i: nat): (r: Option<Match>)
    requires i <= |s|
    ensures r.Some? ==> FenceAt(s, i) && 0 < r.value.length && i + r.value.length <= |s|
  {
    if !FenceAt(s, i) then None
    else
      var k := KeywordLength(s, i + 3);
      if k == 0 then None
      else
        var w := SpaceRun(s, i + 3 + k);
        if w == 0 then None
        else
          var j := i + 3 + k + w;
          match FindFence(s, j)
          case None => None
          case Some(e) => Some(Match(s[j..e], e + 3 - i))
  }

  /**
    What it means for the expression to match at index `i` of `s` with keyword `kw` and the
    body starting at `j`: a fence, the keyword up to case, a maximal non-empty run of
    whitespace, then the shortest body that is followed by a fence.
   */
  ghost predicate MatchesWith(s: string, i: nat, kw: string, j: int, m: Match)
  {
    && kw in Keywords
    && FenceAt(s, i)
    && KeywordAt(s, i + 3, kw)
    && i + 3 + |kw| < j
    && j + |m.body| + 3 == i + m.length <= |s|
    && AllSpace(s, i + 3 + |kw|, j)
    && !IsSpace(s[j])
    && s[j..j + |m.body|] == m.body
    && FenceAt(s, j + |m.body|)
    && NoFence(s, j, j + |m.body|)
  }

  ghost predicate IsMatch(s: string, i: nat, m: Match)
  {
    exists kw, j :: MatchesWith(s, i, kw, j, m)
  }

  lemma KeywordChar(s: string, i: nat, kw: string, j: nat)
    requires j < |kw|
    ensures KeywordAt(s, i, kw) ==> FoldCase(s[i + j]) == kw[j]
  {
  }

  /** The three keywords begin differently, so at most one of them is present. */
  lemma KeywordUnique(s: string, i: nat, kw: string)
    requires kw in Keywords && KeywordAt(s, i, kw)
    ensures KeywordLength(s, i) == |kw|
  {
    KeywordChar(s, i, "uml", 0);
    KeywordChar(s, i, "puml", 1);
    KeywordChar(s, i, "plantuml", 1);
    KeywordChar(s, i, kw, 0);
    KeywordChar(s, i, kw, 1);
  }

  /** No keyword starts with a character other than `u` or `p`. */
  lemma NoKeywordAt(s: string, i: nat)
    requires i < |s| && FoldCase(s[i]) != 'u' && FoldCase(s[i]) != 'p'
    ensures KeywordLength(s, i) == 0
  {
    KeywordChar(s, i, "uml", 0);
    KeywordChar(s, i, "puml", 0);
    KeywordChar(s, i, "plantuml", 0);
  }

  lemma SpaceRunUnique(s: string, i: nat, n: nat)
    requires i + n < |s|
    requires AllSpace(s, i, i + n) && !IsSpace(s[i + n])
    ensures SpaceRun(s, i) == n
  {
    SpaceRunAllSpace(s, i);
  }

  lemma FindFenceUnique(s: string, i: nat, e: nat)
    requires i <= e && FenceAt(s, e) && NoFence(s, i, e)
    ensures FindFence(s, i) == Some(e)
  {
    FindFenceFirst(s, i);
  }

  /** The keyword whose length `KeywordLength` reports. */
  lemma KeywordOfLength(s: string, i: nat) returns (kw: string)
    requires KeywordLength(s, i) != 0
    ensures kw in Keywords && |kw| == KeywordLength(s, i) && KeywordAt(s, i, kw)
  {
    var k := KeywordLength(s, i);
    kw := if k == 3 then "uml" else if k == 4 then "puml" else "plantuml";
  }

  /** What the scanner finds is a match of the expression. */
  lemma MatchAtSound(s: string, i: nat)
    requires i <= |s| && MatchAt(s, i).Some?
    ensures IsMatch(s, i, MatchAt(s, i).value)
  {
    var m := MatchAt(s, i).value;
    var kw := KeywordOfLength(s, i + 3);
    var k := |kw|;
    var w := SpaceRun(s, i + 3 + k);
    var j := i + 3 + k + w;
    var e := FindFence(s, j).value;
    assert m == Match(s[j..e], e + 3 - i);
    SpaceRunAllSpace(s, i + 3 + k);
    FindFenceFirst(s, j);
    assert MatchesWith(s, i, kw, j, m);
  }

  /** The scanner's steps, given the pieces a match is made of. */
  lemma MatchAtFrom(s: string, i: nat, k: nat, w: nat, m: Match)
    requires i <= |s| && FenceAt(s, i)
    requires k == KeywordLength(s, i + 3) != 0
    requires w == SpaceRun(s, i + 3 + k) != 0
    requires FindFence(s, i + 3 + k + w) == Some(i + 3 + k + w + |m.body|)
    requires m.body == s[i + 3 + k + w..i + 3 + k + w + |m.body|] && m.length == 3 + k + w + |m.body| + 3
    ensures MatchAt(s, i) == Some(m)
  {
  }

  /** A match of the expression fixes each quantity the scanner computes. */
  lemma MatchPieces(s: string, i: nat, kw: string, j: int, m: Match)
    requires i <= |s| && MatchesWith(s, i, kw, j, m)
    ensures KeywordLength(s, i + 3) == |kw|
    ensures SpaceRun(s, i + 3 + |kw|) == j - (i + 3 + |kw|)
    ensures FindFence(s, j) == Some(j + |m.body|)
  {
    KeywordUnique(s, i + 3, kw);
    SpaceRunUnique(s, i + 3 + |kw|, j - (i + 3 + |kw|));
    FindFenceUnique(s, j, j + |m.body|);
  }

  /** Every match of the expression is the one the scanner finds. */
  lemma MatchAtComplete(s: string, i: nat, m: Match)
    requires i <= |s| && IsMatch(s, i, m)
    ensures MatchAt(s, i) == Some(m)
  {
    var kw, j :| MatchesWith(s, i, kw, j, m);
    MatchPieces(s, i, kw, j, m);
    MatchAtFrom(s, i, |kw|, j - (i + 3 + |kw|), m);
  }

  /** The scanner's attempt agrees with the meaning of the expression, in both directions. */
  lemma MatchAtIsRegexMatch(s: string, i: nat, m: Match)
    requires i <= |s|
    ensures MatchAt(s, i) == Some(m) <==> IsMatch(s, i, m)
  {
    if MatchAt(s, i) == Some(m) {
      MatchAtSound(s, i);
    }
    if IsMatch(s, i, m) {
      MatchAtComplete(s, i, m);
    }
  }

  /** `'{% uml %}' + '\n' + uml + '{% enduml %}'`: the replacement for one match. */
  function Template(body: string): (t: string)
    ensures |t| == |body| + 22 && t[0] == '{' && t[10..10 + |body|] == body
    ensures t[..10] == "{% uml %}\n" && t[10 + |body|..] == "{% enduml %}"
  {
    "{% uml %}" + "\n" + body + "{% enduml %}"
  }

  /**
    The global replace from index `i` on: at each position either a match is replaced and
    scanning resumes after it, or one character is copied and scanning moves on by one.
   */
  function ReplaceFrom(s: string, i: nat): (r: string)
    requires i <= |s|
    ensures NoMatch(s, i, |s|) ==> r == s[i..]
    decreases |s| - i
  {
    if i == |s| then ""
    else
      match MatchAt(s, i)
      case Some(m) => Template(m.body) + ReplaceFrom(s, i + m.length)
      case None => [s[i]] + ReplaceFrom(s, i + 1)
  }

  /** `replaceCodeBlock(markdown)`: the output equals the input exactly when the expression matches nowhere in it. */
  function ReplaceCodeBlock(markdown: string): (r: string)
    ensures r == markdown <==> NoMatch(markdown, 0, |markdown|)
  {
    assert markdown[0..] == markdown;
    UnchangedFromHasNoMatch(markdown, 0);
    ReplaceFrom(markdown, 0)
  }

  /** The expression matches at no index in `[lo, hi)`. */
  predicate NoMatch(s: string, lo: nat, hi: nat)
    requires hi <= |s|
  {
    forall k | lo <= k < hi :: MatchAt(s, k).None?
  }

  /** Where nothing matches, the scan copies one character. */
  lemma ReplaceCopies(s: string, i: nat)
    requires i < |s| && MatchAt(s, i).None?
    ensures ReplaceFrom(s, i) == [s[i]] + ReplaceFrom(s, i + 1)
  {
  }

  /** Where the expression matches, the scan emits the template and skips the match. */
  lemma ReplaceMatches(s: string, i: nat)
    requires i < |s| && MatchAt(s, i).Some?
    ensures ReplaceFrom(s, i) == Template(MatchAt(s, i).value.body) + ReplaceFrom(s, i + MatchAt(s, i).value.length)
  {
  }

  lemma SliceCons(s: string, a: nat, p: nat)
    requires a < p <= |s|
    ensures s[a..p] == [s[a]] + s[a + 1..p]
  {
  }

  lemma ConsAssoc(x: char, u: string, v: string)
    ensures [x] + (u + v) == ([x] + u) + v
  {
  }

  /** Text in which nothing matches is copied verbatim, and the scan carries on after it. */
  lemma {:induction false} CopyUntil(s: string, a: nat, p: nat)
    requires a <= p <= |s| && NoMatch(s, a, p)
    ensures ReplaceFrom(s, a) == s[a..p] + ReplaceFrom(s, p)
    decreases p - a
  {
    if a < p {
      ReplaceCopies(s, a);
      CopyUntil(s, a + 1, p);
      SliceCons(s, a, p);
      ConsAssoc(s[a], s[a + 1..p], ReplaceFrom(s, p));
    }
  }

  /**
    Matches are found left to right and do not overlap: everything before the first match is
    copied verbatim, the first match is replaced, and scanning resumes right after it.
   */
  lemma FirstMatchReplaced(s: string, i: nat)
    requires i < |s| && NoMatch(s, 0, i) && MatchAt(s, i).Some?
    ensures var m := MatchAt(s, i).value;
      && i + m.length <= |s|
      && ReplaceCodeBlock(s) == s[..i] + Template(m.body) + ReplaceFrom(s, i + m.length)
  {
    CopyUntil(s, 0, i);
    ReplaceMatches(s, i);
    assert s[0..i] == s[..i];
  }

  /** The template starts with `{`, which no fence does. */
  lemma MatchChangesText(s: string, i: nat)
    requires i < |s| && MatchAt(s, i).Some?
    ensures ReplaceFrom(s, i)[0] != s[i]
    ensures ReplaceFrom(s, i) != s[i..]
  {
    ReplaceMatches(s, i);
    assert s[i..][0] == s[i];
  }

  /** A scan that changes nothing saw no match. */
  lemma {:induction false} UnchangedFromHasNoMatch(s: string, a: nat)
    requires a <= |s|
    ensures ReplaceFrom(s, a) == s[a..] ==> NoMatch(s, a, |s|)
    decreases |s| - a
  {
    if a < |s| && ReplaceFrom(s, a) == s[a..] {
      if MatchAt(s, a).Some? {
        MatchChangesText(s, a);
        assert false;
      }
      ReplaceCopies(s, a);
      SliceCons(s, a, |s|);
      assert ReplaceFrom(s, a + 1) == ReplaceFrom(s, a)[1..];
      assert s[a + 1..] == s[a..][1..];
      UnchangedFromHasNoMatch(s, a + 1);
    }
  }

  /** Text without any code fence is returned as it is. */
  lemma NoFenceUnchanged(s: string)
    requires NoFence(s, 0, |s|)
    ensures ReplaceCodeBlock(s) == s
  {
  }

  /** A prefix without backticks cannot start a match, so it passes through unchanged. */
  lemma BacktickFreePrefix(s: string, p: nat)
    requires p <= |s| && forall k | 0 <= k < p :: s[k] != '`'
    ensures ReplaceCodeBlock(s) == s[..p] + ReplaceFrom(s, p)
  {
    CopyUntil(s, 0, p);
  }

  /** Plain text comes back unchanged. */
  lemma PlainTextExample()
    ensures ReplaceCodeBlock("foo") == "foo"
  {
    NoFenceUnchanged("foo");
  }

  /** A fenced block in another language is left as it is. */
  lemma OtherLanguageExample()
    ensures ReplaceCodeBlock("```js\nx\n```") == "```js\nx\n```"
  {
    var s := "```js\nx\n```";
    assert NoMatch(s, 0, |s|) by {
      forall k | 0 <= k < |s|
        ensures MatchAt(s, k).None?
      {
        if k == 0 {
          NoKeywordAt(s, 3);
        } else if k != 8 {
          assert !FenceAt(s, k);
        }
      }
    }
  }

  lemma ConvertExampleKeyword(s: string)
    requires s == "```PlantUML\nA -> B\n```"
    ensures KeywordLength(s, 3) == 8
  {
    assert KeywordAt(s, 3, "plantuml") by {
      forall j | 0 <= j < 8
        ensures FoldCase(s[3 + j]) == "plantuml"[j]
      {
      }
    }
    KeywordUnique(s, 3, "plantuml");
  }

  lemma ConvertExampleBody(s: string)
    requires s == "```PlantUML\nA -> B\n```"
    ensures SpaceRun(s, 11) == 1
    ensures FindFence(s, 12) == Some(19)
    ensures s[12..19] == "A -> B\n"
  {
    assert AllSpace(s, 11, 12) && !IsSpace(s[12]);
    SpaceRunUnique(s, 11, 1);
    assert NoFence(s, 12, 19) by {
      forall k | 12 <= k < 19
        ensures !FenceAt(s, k)
      {
        assert s[k] != '`';
      }
    }
    FindFenceUnique(s, 12, 19);
  }

  lemma ConvertExampleMatch(s: string)
    requires s == "```PlantUML\nA -> B\n```"
    ensures MatchAt(s, 0) == Some(Match("A -> B\n", 22))
  {
    ConvertExampleKeyword(s);
    ConvertExampleBody(s);
    MatchAtFrom(s, 0, 8, 1, Match("A -> B\n", 22));
  }

  lemma ConvertExampleTemplate()
    ensures Template("A -> B\n") == "{% uml %}\nA -> B\n{% enduml %}"
  {
  }

  /** A fenced PlantUML block becomes a `{% uml %}` block; the keyword's case does not matter. */
  lemma ConvertExample()
    ensures ReplaceCodeBlock("```PlantUML\nA -> B\n```") == "{% uml %}\nA -> B\n{% enduml %}"
  {
    var s := "```PlantUML\nA -> B\n```";
    ConvertExampleMatch(s);
    ReplaceMatches(s, 0);
    ConvertExampleTemplate();
  }

  // ---------------------------------------------------------------------------
  // makeHtml
  // ---------------------------------------------------------------------------

  /** How a template literal interpolates a `string | null`. */
  function Interpolate(v: Option<string>): string
  {
    match v
    case None => "null"
    case Some(s) => s
  }

  /** Everything `makeHtml` writes before the base 64 text. */
  function FigureHead(mime: string, cssClass: Option<string>): string
  {
    "<figure class=\"" + Interpolate(cssClass) + "\">" + "<img src=\"" + "data:" + mime + ";base64,"
  }

  /** Everything `makeHtml` writes after the base 64 text. */
  const FigureTail: string := "\">" + "</figure>"

  /** Cutting a three-part concatenation back into its parts. */
  lemma SplitThree(h: string, m: string, t: string)
    ensures var x := h + m + t;
      && x[..|h|] == h
      && x[|x| - |t|..] == t
      && x[|h|..|x| - |t|] == m
  {
  }

  /**
    `makeHtml(data, mime, cssClass)`: a `<figure>` around an `<img>` whose source is a data URL.
    The page text before and after the base 64 part is fixed by the class and the MIME type,
    and the base 64 part decodes back to the data.
   */
  function MakeHtml(data: Bytes, mime: string, cssClass: Option<string>): (html: string)
    ensures |FigureHead(mime, cssClass)| + |FigureTail| <= |html|
    ensures html[..|FigureHead(mime, cssClass)|] == FigureHead(mime, cssClass)
    ensures html[|html| - |FigureTail|..] == FigureTail
    ensures Base64.Decode(html[|FigureHead(mime, cssClass)|..|html| - |FigureTail|]) == Some(data)
  {
    var url := "data:" + mime + ";base64," + Base64.Encode(data);
    var html := "<figure class=\"" + Interpolate(cssClass) + "\">" + "<img src=\"" + url + "\">" + "</figure>";
    assert html == FigureHead(mime, cssClass) + Base64.Encode(data) + FigureTail;
    SplitThree(FigureHead(mime, cssClass), Base64.Encode(data), FigureTail);
    Base64.DecodeEncode(data);
    html
  }

  lemma MakeHtmlShape(data: Bytes, mime: string, cssClass: Option<string>)
    ensures MakeHtml(data, mime, cssClass) == FigureHead(mime, cssClass) + Base64.Encode(data) + FigureTail
  {
  }

  /** `SVG DATA` as `image/svg+xml` with class `foo`. */
  lemma MakeHtmlExample()
    ensures MakeHtml([83, 86, 71, 32, 68, 65, 84, 65], "image/svg+xml", Some("foo"))
            == "<figure class=\"foo\"><img src=\"data:image/svg+xml;base64,U1ZHIERBVEE=\"></figure>"
  {
    var data: Bytes := [83, 86, 71, 32, 68, 65, 84, 65];
    MakeHtmlShape(data, "image/svg+xml", Some("foo"));
    Base64.EncodeExample();
    ExampleHead();
    ExampleFigure();
  }

  lemma ExampleFigure()
    ensures "<figure class=\"foo\"><img src=\"data:image/svg+xml;base64," + "U1ZHIERBVEE=" + FigureTail
            == "<figure class=\"foo\"><img src=\"data:image/svg+xml;base64,U1ZHIERBVEE=\"></figure>"
  {
  }

  lemma ExampleHead()
    ensures FigureHead("image/svg+xml", Some("foo")) == "<figure class=\"foo\"><img src=\"data:image/svg+xml;base64,"
  {
  }

  /** A null class is written as the text `null`. */
  lemma MakeHtmlNullClass(data: Bytes, mime: string)
    ensures MakeHtml(data, mime, None)[..20] == "<figure class=\"null\""
  {
    MakeHtmlShape(data, mime, None);
    assert FigureHead(mime, None)[..20] == "<figure class=\"null\"";
  }
}
