/** List slugs: the normalising pipeline, and the search for one that is not taken. */
module Slug {
  import opened Model
  import opened Numerals

  // ---- Characters ----

  /** JavaScript's `\s`, which is also what `trim` removes. */
  predicate IsSpace(c: char) {
    '\U{9}' <= c <= '\U{D}' || c == ' ' || c == '\U{A0}' || c == '\U{1680}' || '\U{2000}' <= c <= '\U{200A}' ||
    c == '\U{2028}' || c == '\U{2029}' || c == '\U{202F}' || c == '\U{205F}' || c == '\U{3000}' || c == '\U{FEFF}'
  }

  /** What a slug's words are made of: Arabic script, Latin small letters and digits. */
  predicate IsWord(c: char) { '\U{600}' <= c <= '\U{6FF}' || 'a' <= c <= 'z' || '0' <= c <= '9' }

  predicate IsSeparator(c: char) { IsSpace(c) || c == '-' }

  /**
   * toLowerCase, as far as a slug can tell: no other character has a lower-case form with an allowed character
   * in it. The Kelvin sign becomes k; the dotted capital I becomes i and a combining dot.
   */
  function LowerChar(c: char): string {
    if 'A' <= c <= 'Z' then [(c as int - 'A' as int + 'a' as int) as char]
    else if c == '\U{212A}' then "k"
    else if c == '\U{130}' then "i\U{307}"
    else [c]
  }

  // ---- The pipeline, one replacement after the other ----

  function Lower(s: string): string {
    if s == "" then "" else LowerChar(s[0]) + Lower(s[1..])
  }

  function TrimLeft(s: string): string {
    if s != "" && IsSpace(s[0]) then TrimLeft(s[1..]) else s
  }

  function TrimRight(s: string): string {
    if s != "" && IsSpace(s[|s| - 1]) then TrimRight(s[..|s| - 1]) else s
  }

  function Keep(s: string): string {
    if s == "" then "" else if IsWord(s[0]) || IsSeparator(s[0]) then [s[0]] + Keep(s[1..]) else Keep(s[1..])
  }

  /** Replaces every maximal run of spaces by one hyphen. */
  function Hyphenate(s: string): string {
    if s == "" then ""
    else if !IsSpace(s[0]) then [s[0]] + Hyphenate(s[1..])
    else if |s| > 1 && IsSpace(s[1]) then Hyphenate(s[1..])
    else "-" + Hyphenate(s[1..])
  }

  /** Replaces every maximal run of hyphens by one. */
  function Collapse(s: string): string {
    if s == "" then ""
    else if |s| > 1 && s[0] == '-' && s[1] == '-' then Collapse(s[1..])
    else [s[0]] + Collapse(s[1..])
  }

  function StripLeft(s: string): string {
    if s != "" && s[0] == '-' then StripLeft(s[1..]) else s
  }

  function StripRight(s: string): string {
    if s != "" && s[|s| - 1] == '-' then StripRight(s[..|s| - 1]) else s
  }

  function GenerateListSlug(input: string): string {
    StripRight(StripLeft(Collapse(Hyphenate(Keep(TrimRight(TrimLeft(Lower(input))))))))
  }

  // ---- What it computes: the words of the input, joined by single hyphens ----

  /** The maximal runs of word characters. */
  function Words(s: string): (ws: seq<string>)
    ensures s != "" && !IsSeparator(s[0]) ==> ws != []
  {
    if s == "" then []
    else if IsSeparator(s[0]) then Words(s[1..])
    else if |s| == 1 || IsSeparator(s[1]) then [[s[0]]] + Words(s[1..])
    else
      var ws := Words(s[1..]);
      [[s[0]] + ws[0]] + ws[1..]
  }

  function Join(ws: seq<string>): string {
    if |ws| == 0 then "" else if |ws| == 1 then ws[0] else ws[0] + "-" + Join(ws[1..])
  }

  predicate Plain(s: string) { forall i | 0 <= i < |s| :: IsWord(s[i]) || IsSeparator(s[i]) }

  /** Both replacements of separators in one. */
  function Squeeze(s: string): string {
    if s == "" then ""
    else if !IsSeparator(s[0]) then [s[0]] + Squeeze(s[1..])
    else if |s| > 1 && IsSeparator(s[1]) then Squeeze(s[1..])
    else "-" + Squeeze(s[1..])
  }

  lemma {:induction false} HyphenateHead(s: string)
    ensures Hyphenate(s) == "" <==> s == ""
    ensures s != "" ==> (Hyphenate(s)[0] == '-' <==> IsSeparator(s[0]))
  {
    if s != "" { HyphenateHead(s[1..]); }
  }

  lemma {:induction false} TwoReplacementsAreOne(s: string)
    ensures Collapse(Hyphenate(s)) == Squeeze(s)
  {
    if s != "" {
      TwoReplacementsAreOne(s[1..]);
      HyphenateHead(s[1..]);
      var c, rest := if IsSpace(s[0]) then '-' else s[0], Hyphenate(s[1..]);
      assert ([c] + rest)[1..] == rest;
    }
  }

  function Lead(s: string): string { if s != "" && IsSeparator(s[0]) then "-" else "" }

  function Trail(s: string): string { if Words(s) != [] && IsSeparator(s[|s| - 1]) then "-" else "" }

  function Joined(s: string): string { Lead(s) + Join(Words(s)) + Trail(s) }

  lemma {:induction false} SqueezeJoinsWords(s: string)
    ensures Squeeze(s) == Joined(s)
  {
    if s != "" {
      SqueezeJoinsWords(s[1..]);
      if IsSeparator(s[0]) { SeparatorAhead(s); }
      else if |s| > 1 && !IsSeparator(s[1]) { LetterAhead(s); }
      else { OneLetterWordAhead(s); }
    }
  }

  lemma SeparatorAhead(s: string)
    requires s != "" && IsSeparator(s[0])
    ensures Joined(s) == (if |s| > 1 && IsSeparator(s[1]) then "" else "-") + Joined(s[1..])
  {
    var rest := s[1..];
    assert Words(s) == Words(rest);
    if |s| > 1 { assert rest[|rest| - 1] == s[|s| - 1] && rest[0] == s[1]; }
    assert Trail(s) == Trail(rest);
  }

  lemma LetterAhead(s: string)
    requires |s| > 1 && !IsSeparator(s[0]) && !IsSeparator(s[1])
    ensures Joined(s) == [s[0]] + Joined(s[1..])
  {
    var rest := s[1..];
    assert rest[|rest| - 1] == s[|s| - 1] && rest[0] == s[1];
    var ws := Words(rest);
    assert Words(s) == [[s[0]] + ws[0]] + ws[1..];
    assert Words(s)[1..] == ws[1..];
    assert Join(Words(s)) == [s[0]] + Join(ws);
    assert Trail(s) == Trail(rest) && Lead(s) == Lead(rest) == "";
  }

  lemma OneLetterWordAhead(s: string)
    requires s != "" && !IsSeparator(s[0]) && (|s| == 1 || IsSeparator(s[1]))
    ensures Joined(s) == [s[0]] + Joined(s[1..])
  {
    var rest := s[1..];
    var ws := Words(rest);
    assert Words(s) == [[s[0]]] + ws;
    if |s| == 1 {
      assert rest == "" && Join(Words(s)) == [s[0]];
    } else {
      assert rest[|rest| - 1] == s[|s| - 1] && Lead(rest) == "-";
      if ws == [] { NoWordsNoLetter(rest); }
      WordBefore([s[0]], ws, Trail(s), Trail(rest));
    }
  }

  lemma WordBefore(w: string, ws: seq<string>, trail: string, restTrail: string)
    requires if ws == [] then trail == "-" && restTrail == "" else trail == restTrail
    ensures "" + Join([w] + ws) + trail == w + ("-" + Join(ws) + restTrail)
  {
    assert ([w] + ws)[1..] == ws;
    if ws != [] {
      assert Join([w] + ws) == w + "-" + Join(ws);
    }
  }

  lemma {:induction false} NoWordsNoLetter(s: string)
    requires Words(s) == []
    ensures forall i | 0 <= i < |s| :: IsSeparator(s[i])
  {
    if s != "" { NoWordsNoLetter(s[1..]); }
  }

  predicate NonEmptyWords(ws: seq<string>) {
    forall i | 0 <= i < |ws| :: ws[i] != "" && forall j | 0 <= j < |ws[i]| :: IsWord(ws[i][j])
  }

  lemma {:induction false} WordsAreWords(s: string)
    requires Plain(s)
    ensures NonEmptyWords(Words(s))
  {
    if s != "" {
      assert Plain(s[1..]);
      WordsAreWords(s[1..]);
      if !IsSeparator(s[0]) && |s| > 1 && !IsSeparator(s[1]) {
        var first := Words(s[1..])[0];
        assert forall j | 0 <= j < |first| :: ([s[0]] + first)[j + 1] == first[j];
        assert forall j | 0 < j < |first| + 1 :: ([s[0]] + first)[j] == first[j - 1];
      }
    }
  }

  /** A slug's shape: words of allowed characters, with single hyphens between them and none at the ends. */
  predicate IsSlug(s: string) {
    SlugCharacters(s) && SingleHyphens(s) && (s != "" ==> s[0] != '-' && s[|s| - 1] != '-')
  }

  lemma {:induction false} JoinIsSlug(ws: seq<string>)
    requires NonEmptyWords(ws)
    ensures IsSlug(Join(ws)) && (ws != [] ==> Join(ws) != "")
  {
    if |ws| > 1 {
      var tail := Join(ws[1..]);
      JoinIsSlug(ws[1..]);
      var s, k := Join(ws), |ws[0]|;
      assert forall i | 0 <= i < k :: s[i] == ws[0][i];
      assert s[k] == '-' && forall i | k < i < |s| :: s[i] == tail[i - k - 1];
    }
  }

  lemma {:induction false} KeepIsPlain(s: string)
    ensures Plain(Keep(s))
  {
    if s != "" {
      KeepIsPlain(s[1..]);
    }
  }

  predicate AtMostHyphen(s: string) { s == "" || s == "-" }

  lemma StripLeftOf(lead: string, s: string)
    requires AtMostHyphen(lead) && (s != "" ==> s[0] != '-')
    ensures StripLeft(lead + s) == s
  {
    assert StripLeft(s) == s;
    if lead == "" { assert lead + s == s; } else { assert (lead + s)[1..] == s && (lead + s)[0] == '-'; }
  }

  lemma StripRightOf(s: string, trail: string)
    requires AtMostHyphen(trail) && (s != "" ==> s[|s| - 1] != '-')
    ensures StripRight(s + trail) == s
  {
    var t := s + trail;
    assert StripRight(s) == s;
    if trail == "" { assert t == s; } else { assert t[..|t| - 1] == s && t[|t| - 1] == '-'; }
  }

  lemma StripBoth(lead: string, s: string, trail: string)
    requires AtMostHyphen(lead) && AtMostHyphen(trail) && (s == "" ==> trail == "")
    requires s != "" ==> s[0] != '-' && s[|s| - 1] != '-'
    ensures StripRight(StripLeft(lead + s + trail)) == s
  {
    assert lead + s + trail == lead + (s + trail);
    assert s != "" ==> (s + trail)[0] == s[0];
    StripLeftOf(lead, s + trail);
    StripRightOf(s, trail);
  }

  lemma {:induction false} KeepConcat(a: string, b: string)
    ensures Keep(a + b) == Keep(a) + Keep(b)
  {
    if a == "" {
      assert a + b == b;
    } else {
      assert (a + b)[1..] == a[1..] + b;
      KeepConcat(a[1..], b);
    }
  }

  lemma {:induction false} TrailingSpaceAddsNoWord(s: string, c: char)
    requires IsSpace(c)
    ensures Words(s + [c]) == Words(s)
  {
    if s == "" {
      assert s + [c] == [c];
      assert Words([c][1..]) == [];
    } else {
      assert (s + [c])[1..] == s[1..] + [c];
      TrailingSpaceAddsNoWord(s[1..], c);
    }
  }

  lemma {:induction false} TrimLeftKeepsWords(s: string)
    ensures Words(Keep(TrimLeft(s))) == Words(Keep(s))
  {
    if s != "" && IsSpace(s[0]) {
      TrimLeftKeepsWords(s[1..]);
      assert Keep(s)[1..] == Keep(s[1..]);
    }
  }

  lemma {:induction false} TrimRightKeepsWords(s: string)
    ensures Words(Keep(TrimRight(s))) == Words(Keep(s))
  {
    if s != "" && IsSpace(s[|s| - 1]) {
      var head, last := s[..|s| - 1], s[|s| - 1];
      TrimRightKeepsWords(head);
      assert s == head + [last];
      KeepConcat(head, [last]);
      assert Keep([last][1..]) == "";
      assert Keep([last]) == [last];
      TrailingSpaceAddsNoWord(Keep(head), last);
    }
  }

  /** The six replacements come to this: the words of the lower-cased input, in order, joined by single hyphens. */
  lemma SlugJoinsWords(input: string)
    ensures GenerateListSlug(input) == Join(Words(Keep(Lower(input))))
  {
    var low := Lower(input);
    TrimLeftKeepsWords(low);
    TrimRightKeepsWords(TrimLeft(low));
    var s := Keep(TrimRight(TrimLeft(low)));
    TwoReplacementsAreOne(s);
    SqueezeJoinsWords(s);
    KeepIsPlain(TrimRight(TrimLeft(low)));
    WordsAreWords(s);
    JoinIsSlug(Words(s));
    StripBoth(Lead(s), Join(Words(s)), Trail(s));
  }

  predicate SlugCharacters(s: string) { forall i | 0 <= i < |s| :: IsWord(s[i]) || s[i] == '-' }

  predicate SingleHyphens(s: string) { forall i | 0 <= i < |s| - 1 :: s[i] != '-' || s[i + 1] != '-' }

  lemma {:induction false} CharactersAreUntouched(s: string)
    requires SlugCharacters(s)
    ensures Lower(s) == s && Keep(s) == s
  {
    if s != "" { CharactersAreUntouched(s[1..]); }
  }

  lemma {:induction false} HyphensAreUntouched(s: string)
    requires SlugCharacters(s) && SingleHyphens(s)
    ensures Squeeze(s) == s
  {
    if s != "" {
      assert forall i | 0 <= i < |s[1..]| :: s[1..][i] == s[i + 1];
      HyphensAreUntouched(s[1..]);
    }
  }

  /** The generator's results are the strings of slug shape, and those it leaves as they are. */
  lemma SlugsAreTheFixedPoints(input: string)
    ensures IsSlug(GenerateListSlug(input))
    ensures IsSlug(input) <==> GenerateListSlug(input) == input
    ensures GenerateListSlug(GenerateListSlug(input)) == GenerateListSlug(input)
  {
    GeneratedIsSlug(input);
    if IsSlug(input) { FixesSlugs(input); }
    FixesSlugs(GenerateListSlug(input));
  }

  lemma GeneratedIsSlug(input: string)
    ensures IsSlug(GenerateListSlug(input))
  {
    SlugJoinsWords(input);
    KeepIsPlain(Lower(input));
    WordsAreWords(Keep(Lower(input)));
    JoinIsSlug(Words(Keep(Lower(input))));
  }

  lemma FixesSlugs(s: string)
    requires IsSlug(s)
    ensures GenerateListSlug(s) == s
  {
    CharactersAreUntouched(s);
    HyphensAreUntouched(s);
    TwoReplacementsAreOne(s);
    assert s != "" ==> !IsSpace(s[0]) && !IsSpace(s[|s| - 1]);
    assert TrimRight(TrimLeft(s)) == s;
    assert StripRight(StripLeft(s)) == s;
  }

  // ---- Candidates ----

  /** base, base-1, base-2, ... */
  function Candidate(baseSlug: string, k: nat): string {
    if k == 0 then baseSlug else baseSlug + "-" + Decimal(k)
  }

  lemma CandidatesDiffer(baseSlug: string, j: nat, k: nat)
    requires Candidate(baseSlug, j) == Candidate(baseSlug, k)
    ensures j == k
  {
    var n := |baseSlug| + 1;
    if j > 0 && k > 0 {
      DecimalReadsBack(j);
      DecimalReadsBack(k);
      assert Candidate(baseSlug, j)[n..] == Decimal(j) && Candidate(baseSlug, k)[n..] == Decimal(k);
    }
  }

  // ---- The search ----

  datatype UserList = UserList(id: Uuid, userId: int, name: string, slug: string, listKey: string, isSystem: bool)

  /** Some list, of any user, other than the excluded one, has this slug. */
  predicate Taken(lists: seq<UserList>, slug: string, excludeId: Option<Uuid>) {
    exists i | 0 <= i < |lists| :: lists[i].slug == slug && excludeId != Some(lists[i].id)
  }

  predicate FirstTaken(lists: seq<UserList>, baseSlug: string, excludeId: Option<Uuid>, n: nat) {
    forall j: nat | j < n :: Taken(lists, Candidate(baseSlug, j), excludeId)
  }

  /** `n` candidates are `n` different slugs, so they cannot all be taken in a table of fewer rows. */
  lemma TakenCandidatesFitTable(lists: seq<UserList>, baseSlug: string, excludeId: Option<Uuid>, n: nat)
    requires FirstTaken(lists, baseSlug, excludeId, n)
    ensures n <= |lists|
  {
    CandidateSetSize(baseSlug, n);
    SlugSetSize(lists);
    forall c | c in CandidateSet(baseSlug, n) ensures c in SlugSet(lists) {
      InCandidateSet(baseSlug, n, c);
      var j: nat :| j < n && c == Candidate(baseSlug, j);
      assert Taken(lists, Candidate(baseSlug, j), excludeId);
      var i :| 0 <= i < |lists| && lists[i].slug == c;
      assert lists[i] in lists;
    }
    SubsetSize(CandidateSet(baseSlug, n), SlugSet(lists));
  }

  function CandidateSet(baseSlug: string, n: nat): set<string> {
    if n == 0 then {} else CandidateSet(baseSlug, n - 1) + {Candidate(baseSlug, n - 1)}
  }

  lemma {:induction false} InCandidateSet(baseSlug: string, n: nat, c: string)
    requires c in CandidateSet(baseSlug, n)
    ensures exists j: nat | j < n :: c == Candidate(baseSlug, j)
  {
    if c != Candidate(baseSlug, n - 1) { InCandidateSet(baseSlug, n - 1, c); }
  }

  function SlugSet(lists: seq<UserList>): set<string> { set r | r in lists :: r.slug }

  lemma {:induction false} CandidateSetSize(baseSlug: string, n: nat)
    ensures |CandidateSet(baseSlug, n)| == n
  {
    if n > 0 {
      CandidateSetSize(baseSlug, n - 1);
      var c := Candidate(baseSlug, n - 1);
      if c in CandidateSet(baseSlug, n - 1) {
        InCandidateSet(baseSlug, n - 1, c);
        var j: nat :| j < n - 1 && c == Candidate(baseSlug, j);
        CandidatesDiffer(baseSlug, n - 1, j);
      }
    }
  }

  lemma {:induction false} SlugSetSize(lists: seq<UserList>)
    ensures |SlugSet(lists)| <= |lists|
  {
    if lists != [] {
      var head, last := lists[..|lists| - 1], lists[|lists| - 1];
      SlugSetSize(head);
      assert lists == head + [last];
      assert SlugSet(lists) == SlugSet(head) + {last.slug};
    }
  }

  lemma {:induction false} SubsetSize<T>(a: set<T>, b: set<T>)
    requires a <= b
    ensures |a| <= |b|
  {
    if x :| x in a { SubsetSize(a - {x}, b - {x}); }
  }

  /** How many candidates are taken before the first that is free. */
  function FirstFree(lists: seq<UserList>, baseSlug: string, excludeId: Option<Uuid>, from: nat): (k: nat)
    requires FirstTaken(lists, baseSlug, excludeId, from)
    ensures from <= k <= |lists| && FirstTaken(lists, baseSlug, excludeId, k)
    ensures !Taken(lists, Candidate(baseSlug, k), excludeId)
    decreases |lists| + 1 - from
  {
    TakenCandidatesFitTable(lists, baseSlug, excludeId, from);
    if Taken(lists, Candidate(baseSlug, from), excludeId) then FirstFree(lists, baseSlug, excludeId, from + 1) else from
  }

  function UniqueListSlug(lists: seq<UserList>, title: string, excludeId: Option<Uuid>): string {
    var baseSlug := GenerateListSlug(title);
    Candidate(baseSlug, FirstFree(lists, baseSlug, excludeId, 0))
  }

  /** The first candidate that no list has, found within as many probes as there are rows, and one. */
  method GenerateUniqueListSlug(title: string, lists: seq<UserList>, excludeId: Option<Uuid>)
    returns (slug: string, probes: nat)
    ensures slug == UniqueListSlug(lists, title, excludeId)
    ensures 0 < probes <= |lists| + 1
    ensures !Taken(lists, slug, excludeId) && slug == Candidate(GenerateListSlug(title), probes - 1)
    ensures FirstTaken(lists, GenerateListSlug(title), excludeId, probes - 1)
  {
    var baseSlug := GenerateListSlug(title);
    slug := baseSlug;
    var counter := 1;
    probes := 1;
    while Taken(lists, slug, excludeId)
      invariant probes == counter > 0 && slug == Candidate(baseSlug, counter - 1)
      invariant FirstTaken(lists, baseSlug, excludeId, counter - 1)
      invariant counter - 1 <= |lists|
      invariant FirstFree(lists, baseSlug, excludeId, 0) == FirstFree(lists, baseSlug, excludeId, counter - 1)
      decreases |lists| + 1 - counter
    {
      TakenCandidatesFitTable(lists, baseSlug, excludeId, counter);
      slug := baseSlug + "-" + Decimal(counter);
      counter := counter + 1;
      probes := probes + 1;
    }
  }

  predicate SlugOnFile(lists: seq<UserList>, slug: string) { exists i | 0 <= i < |lists| :: lists[i].slug == slug }

  /**
   * A generated slug is no list's. It is the name's slug when no list has that, and otherwise the slug with the first
   * number, counting from 1, that makes it free.
   */
  lemma GeneratedSlugIsNumbered(lists: seq<UserList>, title: string)
    ensures var slug, base := UniqueListSlug(lists, title, None), GenerateListSlug(title);
            && !SlugOnFile(lists, slug)
            && (!SlugOnFile(lists, base) ==> slug == base)
            && (SlugOnFile(lists, base) ==>
                exists n: nat :: 1 <= n <= |lists| && slug == base + "-" + Decimal(n) &&
                  forall m: nat | 1 <= m < n :: SlugOnFile(lists, base + "-" + Decimal(m)))
  {
    var base := GenerateListSlug(title);
    var k := FirstFree(lists, base, None, 0);
    assert !Taken(lists, Candidate(base, k), None);
    assert Taken(lists, Candidate(base, 0), None) <==> SlugOnFile(lists, base);
    if k > 0 {
      forall m: nat | m < k ensures SlugOnFile(lists, Candidate(base, m)) { assert Taken(lists, Candidate(base, m), None); }
      assert UniqueListSlug(lists, title, None) == base + "-" + Decimal(k);
      forall m: nat | 1 <= m < k ensures SlugOnFile(lists, base + "-" + Decimal(m)) { assert SlugOnFile(lists, Candidate(base, m)); }
    }
  }
}
