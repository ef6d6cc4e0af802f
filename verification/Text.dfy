/** Decimal numerals and slugs. */
module Text {

  predicate IsDigit(c: char) { '0' <= c <= '9' }

  predicate AllDigits(s: string) { forall i | 0 <= i < |s| :: IsDigit(s[i]) }

  const DIGITS := "0123456789"

  /** The numeral `%d` prints for a natural number. */
  function Decimal(n: nat): (s: string)
    ensures |s| > 0 && AllDigits(s)
  {
    if n < 10 then [DIGITS[n]] else Decimal(n / 10) + [DIGITS[n % 10]]
  }

  function DigitValue(c: char): (d: nat)
    requires IsDigit(c)
    ensures d < 10 && DIGITS[d] == c
  {
    c as int - '0' as int
  }

  function ValueOf(s: string): nat
    requires AllDigits(s)
  {
    if s == [] then 0 else 10 * ValueOf(s[..|s| - 1]) + DigitValue(s[|s| - 1])
  }

  lemma {:induction false} DecimalReads(n: nat)
    ensures ValueOf(Decimal(n)) == n
  {
    var s := Decimal(n);
    if n >= 10 {
      DecimalReads(n / 10);
      assert s[..|s| - 1] == Decimal(n / 10);
    } else {
      assert s[..|s| - 1] == [];
    }
  }

  /** No numeral has a superfluous leading zero. */
  lemma {:induction false} DecimalIsPlain(n: nat)
    ensures |Decimal(n)| > 1 ==> Decimal(n)[0] != '0'
    ensures n > 0 ==> Decimal(n)[0] != '0'
  {
    if n >= 10 {
      DecimalIsPlain(n / 10);
    }
  }

  // ---- Slugs ----

  predicate SlugChar(c: char) { 'a' <= c <= 'z' || '0' <= c <= '9' }

  /** Replaces every maximal run of other characters by one underscore. */
  function Squeeze(s: string): string
    decreases |s|
  {
    if s == "" then ""
    else if SlugChar(s[0]) then [s[0]] + Squeeze(s[1..])
    else "_" + Squeeze(SkipOthers(s))
  }

  function SkipOthers(s: string): (r: string)
    ensures |r| <= |s|
    ensures s != "" && !SlugChar(s[0]) ==> |r| < |s|
    ensures r != "" ==> SlugChar(r[0])
  {
    if s != "" && !SlugChar(s[0]) then SkipOthers(s[1..]) else s
  }

  /** strings.Trim(s, "_") */
  function Trim(s: string): string
    decreases |s|
  {
    if s != "" && s[0] == '_' then Trim(s[1..])
    else if s != "" && s[|s| - 1] == '_' then Trim(s[..|s| - 1])
    else s
  }

  function Lowered(lower: char -> char, s: string): string {
    seq(|s|, i requires 0 <= i < |s| => lower(s[i]))
  }

  function Slug(lower: char -> char, name: string): string {
    Trim(Squeeze(Lowered(lower, name)))
  }

  /** Words of [a-z0-9] joined by single underscores. */
  predicate SlugText(s: string) {
    && (forall i | 0 <= i < |s| :: SlugChar(s[i]) || s[i] == '_')
    && (forall i | 0 < i < |s| :: s[i - 1] == '_' ==> s[i] != '_')
    && (s != "" ==> s[0] != '_' && s[|s| - 1] != '_')
  }

  /** The inside of a slug: like one, except that it may begin or end with an underscore. */
  predicate Squeezed(s: string) {
    && (forall i | 0 <= i < |s| :: SlugChar(s[i]) || s[i] == '_')
    && (forall i | 0 < i < |s| :: s[i - 1] == '_' ==> s[i] != '_')
  }

  lemma {:induction false} SqueezeIsSqueezed(s: string)
    ensures Squeezed(Squeeze(s))
    ensures s != "" && SlugChar(s[0]) ==> Squeeze(s) != "" && Squeeze(s)[0] == s[0]
    decreases |s|
  {
    if s != "" {
      SqueezeIsSqueezed(if SlugChar(s[0]) then s[1..] else SkipOthers(s));
    }
  }

  lemma {:induction false} TrimIsSlug(s: string)
    requires Squeezed(s)
    ensures SlugText(Trim(s))
    decreases |s|
  {
    if s != "" && s[0] == '_' {
      TrimIsSlug(s[1..]);
    } else if s != "" && s[|s| - 1] == '_' {
      TrimIsSlug(s[..|s| - 1]);
    }
  }

  lemma SlugIsSlug(lower: char -> char, name: string)
    ensures SlugText(Slug(lower, name))
  {
    SqueezeIsSqueezed(Lowered(lower, name));
    TrimIsSlug(Squeeze(Lowered(lower, name)));
  }

  lemma {:induction false} SqueezeFixesSqueezed(s: string)
    requires Squeezed(s)
    ensures Squeeze(s) == s
    decreases |s|
  {
    if s != "" {
      SqueezeFixesSqueezed(s[1..]);
      assert s == [s[0]] + s[1..];
      if !SlugChar(s[0]) {
        assert SkipOthers(s) == SkipOthers(s[1..]) == s[1..];
      }
    }
  }

  /** A name that is a slug already, and that lowercasing leaves alone, is its own slug. */
  lemma SlugFixesSlugs(lower: char -> char, name: string)
    requires SlugText(name) && forall i | 0 <= i < |name| :: lower(name[i]) == name[i]
    ensures Slug(lower, name) == name
  {
    assert Lowered(lower, name) == name;
    SqueezeFixesSqueezed(name);
  }

  // ---- A slug is the words of the name, joined by underscores ----

  predicate IsWord(w: string) { w != "" && forall i | 0 <= i < |w| :: SlugChar(w[i]) }

  /** Text without any letter or digit, possibly empty. */
  predicate IsGap(s: string) { forall i | 0 <= i < |s| :: !SlugChar(s[i]) }

  /** Words with a gap after each but the last. */
  predicate Apart(words: seq<string>, gaps: seq<string>) {
    && |gaps| == (if |words| == 0 then 0 else |words| - 1)
    && (forall i | 0 <= i < |words| :: IsWord(words[i]))
    && (forall i | 0 <= i < |gaps| :: gaps[i] != "" && IsGap(gaps[i]))
  }

  function Spelled(words: seq<string>, gaps: seq<string>): string
    requires Apart(words, gaps)
  {
    if |words| == 0 then "" else if |words| == 1 then words[0]
    else words[0] + gaps[0] + Spelled(words[1..], gaps[1..])
  }

  function Underscored(words: seq<string>): string {
    if |words| == 0 then "" else if |words| == 1 then words[0]
    else words[0] + "_" + Underscored(words[1..])
  }

  lemma {:induction false} SkipsGap(gap: string, b: string)
    requires IsGap(gap) && (b == "" || SlugChar(b[0]))
    ensures SkipOthers(gap + b) == b
  {
    if gap == "" {
      assert gap + b == b;
    } else {
      assert (gap + b)[1..] == gap[1..] + b;
      SkipsGap(gap[1..], b);
    }
  }

  /** A run of other characters becomes one underscore, and the characters around it stay. */
  lemma {:induction false} SqueezeSplits(a: string, gap: string, b: string)
    requires (forall i | 0 <= i < |a| :: SlugChar(a[i])) && gap != "" && IsGap(gap) && (b == "" || SlugChar(b[0]))
    ensures Squeeze(a + gap + b) == a + "_" + Squeeze(b)
  {
    if a == "" {
      assert a + gap + b == gap + b;
      SkipsGap(gap, b);
    } else {
      assert (a + gap + b)[1..] == a[1..] + gap + b;
      SqueezeSplits(a[1..], gap, b);
    }
  }

  lemma WordIsSqueezed(w: string)
    requires IsWord(w)
    ensures Squeeze(w) == w
  {
    SqueezeFixesSqueezed(w);
  }

  lemma {:induction false} SpelledStarts(words: seq<string>, gaps: seq<string>)
    requires Apart(words, gaps) && |words| > 0
    ensures Spelled(words, gaps) != "" && SlugChar(Spelled(words, gaps)[0])
  {
  }

  lemma {:induction false} SqueezeSpelled(words: seq<string>, gaps: seq<string>, trail: string)
    requires Apart(words, gaps) && |words| > 0 && IsGap(trail)
    ensures Squeeze(Spelled(words, gaps) + trail) == Underscored(words) + (if trail == "" then "" else "_")
    decreases |words|
  {
    if |words| == 1 {
      if trail == "" {
        assert words[0] + trail == words[0];
        WordIsSqueezed(words[0]);
      } else {
        assert words[0] + trail == words[0] + trail + "";
        SqueezeSplits(words[0], trail, "");
      }
    } else {
      var rest := Spelled(words[1..], gaps[1..]);
      SpelledStarts(words[1..], gaps[1..]);
      SqueezeSpelled(words[1..], gaps[1..], trail);
      assert Spelled(words, gaps) + trail == words[0] + gaps[0] + (rest + trail);
      SqueezeSplits(words[0], gaps[0], rest + trail);
    }
  }

  lemma {:induction false} UnderscoredEdges(words: seq<string>)
    requires |words| > 0 && forall i | 0 <= i < |words| :: IsWord(words[i])
    ensures var u := Underscored(words); u != "" && u[0] != '_' && u[|u| - 1] != '_'
  {
    if |words| > 1 {
      UnderscoredEdges(words[1..]);
    }
  }

  lemma TrimsEdges(before: string, s: string, after: string)
    requires before in {"", "_"} && after in {"", "_"} && s != "" && s[0] != '_' && s[|s| - 1] != '_'
    ensures Trim(before + s + after) == s
  {
    assert Trim(s) == s;
    assert (s + "_")[..|s|] == s && s + "" == s;
    assert Trim(s + after) == s;
    assert ("_" + s + after)[1..] == s + after;
    assert "" + s + after == s + after;
  }

  /** Any text is words with gaps between, before and after them. */
  lemma {:induction false} IntoWords(s: string)
    returns (lead: string, words: seq<string>, gaps: seq<string>, trail: string)
    ensures IsGap(lead) && Apart(words, gaps) && IsGap(trail) && (words == [] ==> trail == "")
    ensures s == lead + Spelled(words, gaps) + trail
  {
    if s == "" {
      return "", [], [], "";
    }
    var c := s[0];
    lead, words, gaps, trail := IntoWords(s[1..]);
    assert s == [c] + (lead + Spelled(words, gaps) + trail);
    if !SlugChar(c) {
      lead := [c] + lead;
    } else if words == [] {
      assert lead + "" + "" == lead;
      words, trail, lead := [[c]], lead, "";
    } else if lead == "" {
      OneMoreLetter(c, words, gaps);
      words := [[c] + words[0]] + words[1..];
    } else {
      OneMoreWord([c], lead, words, gaps);
      words, gaps, lead := [[c]] + words, [lead] + gaps, "";
    }
  }

  lemma OneMoreLetter(c: char, words: seq<string>, gaps: seq<string>)
    requires SlugChar(c) && Apart(words, gaps) && |words| > 0
    ensures Apart([[c] + words[0]] + words[1..], gaps)
    ensures Spelled([[c] + words[0]] + words[1..], gaps) == [c] + Spelled(words, gaps)
  {
    var longer := [[c] + words[0]] + words[1..];
    assert longer[1..] == words[1..];
    assert IsWord(longer[0]);
    if |words| > 1 {
      var rest := Spelled(words[1..], gaps[1..]);
      assert [c] + words[0] + gaps[0] + rest == [c] + (words[0] + gaps[0] + rest);
    }
  }

  lemma OneMoreWord(w: string, gap: string, words: seq<string>, gaps: seq<string>)
    requires IsWord(w) && gap != "" && IsGap(gap) && Apart(words, gaps) && |words| > 0
    ensures Apart([w] + words, [gap] + gaps)
    ensures Spelled([w] + words, [gap] + gaps) == w + gap + Spelled(words, gaps)
  {
    assert ([w] + words)[1..] == words && ([gap] + gaps)[1..] == gaps;
  }

  /** The slug of a name is the words of its lower-case text, joined by single underscores. */
  lemma SlugIsWords(lower: char -> char, name: string, plain: string,
                    lead: string, words: seq<string>, gaps: seq<string>, trail: string)
    requires |plain| == |name| && forall i | 0 <= i < |name| :: plain[i] == lower(name[i])
    requires IsGap(lead) && Apart(words, gaps) && IsGap(trail) && (words == [] ==> trail == "")
    requires plain == lead + Spelled(words, gaps) + trail
    ensures Slug(lower, name) == Underscored(words)
  {
    assert Lowered(lower, name) == plain;
    if words == [] {
      assert plain == lead;
      GapVanishes(lead);
    } else {
      SqueezesToWords(lead, words, gaps, trail);
      UnderscoredEdges(words);
      TrimsEdges(Edge(lead), Underscored(words), Edge(trail));
    }
  }

  /** What a gap at either end of the text leaves. */
  function Edge(gap: string): string { if gap == "" then "" else "_" }

  lemma SqueezesToWords(lead: string, words: seq<string>, gaps: seq<string>, trail: string)
    requires IsGap(lead) && Apart(words, gaps) && IsGap(trail) && |words| > 0
    ensures Squeeze(lead + Spelled(words, gaps) + trail) == Edge(lead) + Underscored(words) + Edge(trail)
  {
    var rest := Spelled(words, gaps) + trail;
    SpelledStarts(words, gaps);
    SqueezeSpelled(words, gaps, trail);
    Joined(lead, Spelled(words, gaps), trail);
    if lead != "" {
      assert "" + lead + rest == lead + rest;
      SqueezeSplits("", lead, rest);
    }
    Joined(Edge(lead), Underscored(words), Edge(trail));
  }

  lemma Joined(a: string, b: string, c: string)
    ensures a + b + c == a + (b + c)
    ensures a == "" ==> a + (b + c) == b + c
  {
  }

  lemma SlugExamples(lower: char -> char)
    requires forall c :: lower(c) == if c == 'M' then 'm' else if c == 'W' then 'w' else c
    ensures Slug(lower, "My Website!") == "my_website" && Slug(lower, "?!") == ""
  {
    var words, gaps := ["my", "website"], [" "];
    assert words[1..] == ["website"] && gaps[1..] == [];
    assert Spelled(words, gaps) == "my" + " " + "website";
    assert Underscored(words) == "my" + "_" + "website";
    SlugIsWords(lower, "My Website!", "my website!", "", words, gaps, "!");
    SlugIsWords(lower, "?!", "?!", "?!", [], [], "");
  }

  lemma GapVanishes(gap: string)
    requires IsGap(gap)
    ensures Trim(Squeeze(gap)) == ""
  {
    if gap != "" {
      assert "" + gap + "" == gap;
      SqueezeSplits("", gap, "");
      assert Trim("_") == Trim("");
    }
  }

  /** Text of the form prefix, underscore, numeral can be taken apart at the last underscore. */
  lemma SuffixDecodes(p: string, m: nat, q: string, n: nat)
    requires p + "_" + Decimal(m) == q + "_" + Decimal(n)
    ensures m == n && p == q
  {
    var a, b := p + "_" + Decimal(m), q + "_" + Decimal(n);
    assert a[|p|] == '_' && b[|q|] == '_';
    assert forall i | |p| < i < |a| :: a[i] == Decimal(m)[i - |p| - 1];
    assert forall i | |q| < i < |b| :: b[i] == Decimal(n)[i - |q| - 1];
    assert |p| == |q|;
    assert Decimal(m) == a[|p| + 1..] == Decimal(n);
    assert p == a[..|p|] == q;
    DecimalReads(m);
    DecimalReads(n);
  }
}
