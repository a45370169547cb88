/** The slug codec of src/libs/slugs.ts: product and category names to URL slugs
    and back, each direction a chain of `trim`, `replace` and `toLowerCase`. */
module Slugs {
  import opened Wrappers
  import opened Strings
  import opened Seqs
  import Uri

  predicate IsDash(c: char) { c == '-' }

  predicate IsWordOrDash(c: char) { IsWordChar(c) || c == '-' }

  /** The characters of `s` after the leading run of characters satisfying `p`. */
  function DropWhile(s: string, p: char -> bool): (r: string)
    ensures |r| <= |s| && r == s[|s| - |r|..]
    ensures r != [] ==> !p(r[0])
  {
    if s != [] && p(s[0]) then DropWhile(s[1..], p) else s
  }

  /** `replace(/X+/g, sub)` where `X` is the character class `p`: every maximal run
      of characters satisfying `p` becomes the single character `sub`. */
  function CollapseRuns(s: string, p: char -> bool, sub: char): (r: string)
    ensures s == [] <==> r == []
    ensures s != [] ==> r[0] == if p(s[0]) then sub else s[0]
    decreases |s|
  {
    if s == [] then []
    else if p(s[0]) then [sub] + CollapseRuns(DropWhile(s[1..], p), p, sub)
    else [s[0]] + CollapseRuns(s[1..], p, sub)
  }

  /** Every character of the collapsed text is `sub` or a character of `s`, so a
      property of both holds of all of it. */
  lemma {:induction false} CollapseRunsPreserves(s: string, p: char -> bool, sub: char, q: char -> bool)
    requires q(sub) && forall i :: 0 <= i < |s| ==> q(s[i])
    ensures forall i :: 0 <= i < |CollapseRuns(s, p, sub)| ==> q(CollapseRuns(s, p, sub)[i])
    decreases |s|
  {
    if s != [] {
      var head, rest;
      if p(s[0]) {
        head, rest := sub, DropWhile(s[1..], p);
        assert forall i :: 0 <= i < |rest| ==> rest[i] == s[|s| - |rest| + i];
      } else {
        head, rest := s[0], s[1..];
      }
      CollapseRunsPreserves(rest, p, sub, q);
      var r, c := CollapseRuns(s, p, sub), CollapseRuns(rest, p, sub);
      assert r == [head] + c;
      forall i | 0 <= i < |r|
        ensures q(r[i])
      {
        if i > 0 {
          assert r[i] == c[i - 1];
        }
      }
    }
  }

  /** How many characters `StripEdgeDash` cuts at the front. */
  function LeadingCut(s: string): nat
  {
    if s != [] && s[0] == '-' then 1 else 0
  }

  /** `replace(/^-|-$/g, '')`: removes one dash at the start and one at the end. */
  function StripEdgeDash(s: string): (r: string)
    ensures LeadingCut(s) + |r| <= |s|
    ensures r == s[LeadingCut(s)..LeadingCut(s) + |r|]
    ensures |r| + 2 >= |s|
  {
    var t := s[LeadingCut(s)..];
    if t != [] && t[|t| - 1] == '-' then t[..|t| - 1] else t
  }

  /** `nameToSlug`: trim, turn whitespace runs into `-`, drop everything that is
      not a word character or `-`, collapse dash runs, strip an edge dash. */
  function NameToSlug(name: string): string
  {
    var trimmed := Trim(name);
    var dashed := CollapseRuns(trimmed, IsSpace, '-');
    var cleaned := Filter(dashed, IsWordOrDash);
    var collapsed := CollapseRuns(cleaned, IsDash, '-');
    StripEdgeDash(collapsed)
  }

  /** `categoryToSlug`: the same chain with `toLowerCase` after `trim`. */
  function CategoryToSlug(category: string): string
  {
    var trimmed := Trim(category);
    var lowered := ToLower(trimmed);
    var dashed := CollapseRuns(lowered, IsSpace, '-');
    var cleaned := Filter(dashed, IsWordOrDash);
    var collapsed := CollapseRuns(cleaned, IsDash, '-');
    StripEdgeDash(collapsed)
  }

  /** `slugToName`: decode, every `-` to a space, trim. `None` where
      `decodeURIComponent` throws (or, for escapes of non-ASCII bytes, is not modelled). */
  function SlugToName(slug: string): Option<string>
  {
    var decoded := Uri.DecodeUriComponent(slug);
    if decoded.Some? then Some(Trim(ReplaceChar(decoded.value, '-', ' '))) else None
  }

  /** `slugToCategory`: decode, every `-` to a space, `toLowerCase`, trim. */
  function SlugToCategory(slug: string): Option<string>
  {
    var decoded := Uri.DecodeUriComponent(slug);
    if decoded.Some? then Some(Trim(ToLower(ReplaceChar(decoded.value, '-', ' ')))) else None
  }

  // ---------------------------------------------------------------------------
  // What a slug looks like

  predicate AllWordOrDash(s: string)
  {
    forall i :: 0 <= i < |s| ==> IsWordOrDash(s[i])
  }

  predicate NoDoubleDash(s: string)
  {
    forall i :: 0 <= i < |s| - 1 ==> !(s[i] == '-' && s[i + 1] == '-')
  }

  predicate NoEdgeDash(s: string)
  {
    s != [] ==> s[0] != '-' && s[|s| - 1] != '-'
  }

  /** Canonical slug text: word characters and single interior dashes only. */
  predicate IsSlug(s: string)
  {
    AllWordOrDash(s) && NoDoubleDash(s) && NoEdgeDash(s)
  }

  lemma {:induction false} CollapseDashesNoDouble(s: string)
    ensures NoDoubleDash(CollapseRuns(s, IsDash, '-'))
    decreases |s|
  {
    if s != [] {
      if IsDash(s[0]) {
        var t := DropWhile(s[1..], IsDash);
        CollapseDashesNoDouble(t);
      } else {
        CollapseDashesNoDouble(s[1..]);
      }
    }
  }

  /** Cutting the edge dashes of text without double dashes leaves a slug. */
  lemma StripEdgeDashIsSlug(s: string)
    requires AllWordOrDash(s) && NoDoubleDash(s)
    ensures IsSlug(StripEdgeDash(s))
  {
    var r := StripEdgeDash(s);
    var c := LeadingCut(s);
    assert forall i :: 0 <= i < |r| ==> r[i] == s[c + i];
    if r != [] {
      assert r[0] != '-' by {
        if c == 1 { assert s[0] == '-'; }
      }
      assert r[|r| - 1] != '-' by {
        var t := s[c..];
        if t != [] && t[|t| - 1] == '-' {
          assert s[c + |r|] == '-';
        } else {
          assert c + |r| == |s|;
        }
      }
    }
  }

  /** `nameToSlug` yields only ASCII letters, digits, `_` and `-`, never two dashes
      in a row and no dash at either end. */
  lemma NameToSlugIsSlug(name: string)
    ensures IsSlug(NameToSlug(name))
  {
    var dashed := CollapseRuns(Trim(name), IsSpace, '-');
    var cleaned := Filter(dashed, IsWordOrDash);
    assert AllWordOrDash(cleaned);
    CollapseRunsPreserves(cleaned, IsDash, '-', IsWordOrDash);
    var collapsed := CollapseRuns(cleaned, IsDash, '-');
    assert AllWordOrDash(collapsed);
    CollapseDashesNoDouble(cleaned);
    StripEdgeDashIsSlug(collapsed);
  }

  lemma CategoryToSlugIsSlug(category: string)
    ensures IsSlug(CategoryToSlug(category))
  {
    CategoryToSlugIsNameToSlugOfLower(category);
    NameToSlugIsSlug(ToLower(category));
  }

  // ---------------------------------------------------------------------------
  // Idempotence

  lemma {:induction false} CollapseRunsWithout(s: string, p: char -> bool, sub: char)
    requires forall i :: 0 <= i < |s| ==> !p(s[i])
    ensures CollapseRuns(s, p, sub) == s
  {
    if s != [] {
      CollapseRunsWithout(s[1..], p, sub);
    }
  }

  /** Runs of length one are replaced one for one. */
  lemma {:induction false} CollapseSingles(s: string, p: char -> bool, sub: char)
    requires forall i :: 0 <= i < |s| - 1 ==> !(p(s[i]) && p(s[i + 1]))
    ensures var r := CollapseRuns(s, p, sub);
      |r| == |s| && forall i :: 0 <= i < |s| ==> r[i] == if p(s[i]) then sub else s[i]
  {
    if s != [] {
      CollapseSingles(s[1..], p, sub);
      if p(s[0]) && |s| > 1 {
        assert !p(s[1]);
        assert DropWhile(s[1..], p) == s[1..];
      }
    }
  }

  lemma CollapseDashesOfSlug(s: string)
    requires NoDoubleDash(s)
    ensures CollapseRuns(s, IsDash, '-') == s
  {
    CollapseSingles(s, IsDash, '-');
  }

  lemma StripEdgeDashWithout(s: string)
    requires NoEdgeDash(s)
    ensures StripEdgeDash(s) == s
  {
  }

  lemma SlugFixedPoint(s: string)
    requires IsSlug(s)
    ensures NameToSlug(s) == s
  {
    forall i | 0 <= i < |s| ensures !IsSpace(s[i]) {
      WordCharIsNotSpace(s[i]);
    }
    TrimOfTrimmed(s);
    CollapseRunsWithout(s, IsSpace, '-');
    FilterAllPass(s, IsWordOrDash);
    CollapseDashesOfSlug(s);
    StripEdgeDashWithout(s);
  }

  /** `nameToSlug` applied to its own output changes nothing. */
  lemma NameToSlugIdempotent(name: string)
    ensures NameToSlug(NameToSlug(name)) == NameToSlug(name)
  {
    NameToSlugIsSlug(name);
    SlugFixedPoint(NameToSlug(name));
  }

  // ---------------------------------------------------------------------------
  // Round trip

  /** ASCII letters and digits in words separated by single spaces, none at the edges. */
  predicate IsSimpleName(n: string)
  {
    && (forall i :: 0 <= i < |n| ==> IsAsciiAlnum(n[i]) || n[i] == ' ')
    && (forall i :: 0 <= i < |n| - 1 ==> !(n[i] == ' ' && n[i + 1] == ' '))
    && (n != [] ==> n[0] != ' ' && n[|n| - 1] != ' ')
  }

  lemma SpacesToDashesOfSimpleName(n: string)
    requires IsSimpleName(n)
    ensures CollapseRuns(n, IsSpace, '-') == ReplaceChar(n, ' ', '-')
  {
    assert forall i :: 0 <= i < |n| ==> (IsSpace(n[i]) <==> n[i] == ' ');
    CollapseSingles(n, IsSpace, '-');
  }

  lemma DashedSimpleNameIsSlug(n: string)
    requires IsSimpleName(n)
    ensures IsSlug(ReplaceChar(n, ' ', '-'))
  {
  }

  /** For a simple name the slug is the name with every space turned into a dash. */
  lemma NameToSlugOfSimpleName(n: string)
    requires IsSimpleName(n)
    ensures NameToSlug(n) == ReplaceChar(n, ' ', '-')
  {
    TrimOfTrimmed(n);
    SpacesToDashesOfSimpleName(n);
    var dashed := ReplaceChar(n, ' ', '-');
    DashedSimpleNameIsSlug(n);
    FilterAllPass(dashed, IsWordOrDash);
    CollapseDashesOfSlug(dashed);
    StripEdgeDashWithout(dashed);
  }

  /** A character that no position holds is not in the text. */
  lemma NotIn(s: string, c: char)
    requires forall i :: 0 <= i < |s| ==> s[i] != c
    ensures c !in s
  {
  }

  /** Slugs never contain `%`, so decoding them is the identity. */
  lemma SlugDecodesToItself(s: string)
    requires AllWordOrDash(s)
    ensures Uri.DecodeUriComponent(s) == Some(s)
  {
    NotIn(s, '%');
    Uri.DecodeWithoutEscapes(s);
  }

  lemma SlugToNameOfSlug(s: string)
    requires AllWordOrDash(s)
    ensures SlugToName(s) == Some(Trim(ReplaceChar(s, '-', ' ')))
  {
    SlugDecodesToItself(s);
  }

  lemma SlugToCategoryOfSlug(s: string)
    requires AllWordOrDash(s)
    ensures SlugToCategory(s) == Some(Trim(ToLower(ReplaceChar(s, '-', ' '))))
  {
    SlugDecodesToItself(s);
  }

  /** Turning the dashes of a dashed simple name back into spaces gives the name. */
  lemma UndashSimpleName(n: string)
    requires IsSimpleName(n)
    ensures ReplaceChar(ReplaceChar(n, ' ', '-'), '-', ' ') == n
  {
    NotIn(n, '-');
    ReplaceCharBack(n, ' ', '-');
  }

  /** `slugToName(nameToSlug(n)) == n` for names of ASCII words separated by single spaces. */
  lemma SlugRoundTrip(n: string)
    requires IsSimpleName(n)
    ensures SlugToName(NameToSlug(n)) == Some(n)
  {
    NameToSlugOfSimpleName(n);
    DashedSimpleNameIsSlug(n);
    SlugToNameOfSlug(ReplaceChar(n, ' ', '-'));
    UndashSimpleName(n);
    TrimOfTrimmed(n);
  }

  /** The decoded name never contains `-` and has no whitespace at either end. */
  lemma SlugToNameShape(slug: string)
    ensures SlugToName(slug).Some? ==> '-' !in SlugToName(slug).value
    ensures SlugToName(slug).Some? ==> HasNoEdgeSpace(SlugToName(slug).value)
  {
    var d := Uri.DecodeUriComponent(slug);
    if d.Some? {
      var replaced := ReplaceChar(d.value, '-', ' ');
      var r := Trim(replaced);
      assert forall i :: 0 <= i < |r| ==> r[i] == replaced[TrimLead(replaced) + i];
      NotIn(r, '-');
    }
  }

  predicate IsWordOrSpace(c: char) { IsWordChar(c) || c == ' ' }

  /** The name decoded from a `nameToSlug` slug holds only word characters and spaces. */
  lemma DecodedSlugIsWordsAndSpaces(name: string)
    ensures SlugToName(NameToSlug(name)).Some?
    ensures forall i :: 0 <= i < |SlugToName(NameToSlug(name)).value| ==>
      IsWordOrSpace(SlugToName(NameToSlug(name)).value[i])
  {
    var s := NameToSlug(name);
    NameToSlugIsSlug(name);
    SlugToNameOfSlug(s);
    var replaced := ReplaceChar(s, '-', ' ');
    assert forall i :: 0 <= i < |replaced| ==> IsWordOrSpace(replaced[i]);
    TrimPreserves(replaced, IsWordOrSpace);
  }

  // ---------------------------------------------------------------------------
  // Categories

  /** `categoryToSlug(c)` is `nameToSlug` of the lower-cased category. */
  lemma CategoryToSlugIsNameToSlugOfLower(category: string)
    ensures CategoryToSlug(category) == NameToSlug(ToLower(category))
  {
    ToLowerTrimCommute(category);
  }

  /** A property of every character of the name and of `-` holds of every character of its slug. */
  lemma NameToSlugPreserves(name: string, q: char -> bool)
    requires q('-') && forall i :: 0 <= i < |name| ==> q(name[i])
    ensures forall i :: 0 <= i < |NameToSlug(name)| ==> q(NameToSlug(name)[i])
  {
    var trimmed := Trim(name);
    TrimPreserves(name, q);
    var dashed := CollapseRuns(trimmed, IsSpace, '-');
    CollapseRunsPreserves(trimmed, IsSpace, '-', q);
    var cleaned := Filter(dashed, IsWordOrDash);
    FilterPreserves(dashed, IsWordOrDash, q);
    var collapsed := CollapseRuns(cleaned, IsDash, '-');
    CollapseRunsPreserves(cleaned, IsDash, '-', q);
    var r := StripEdgeDash(collapsed);
    assert forall i :: 0 <= i < |r| ==> r[i] == collapsed[LeadingCut(collapsed) + i];
  }

  predicate NotUpper(c: char) { !IsAsciiUpper(c) }

  /** A category slug has no upper-case letter. */
  lemma CategoryToSlugIsLower(category: string)
    ensures HasNoUpper(CategoryToSlug(category))
  {
    CategoryToSlugIsNameToSlugOfLower(category);
    var lowered := ToLower(category);
    assert forall i :: 0 <= i < |lowered| ==> NotUpper(lowered[i]);
    NameToSlugPreserves(lowered, NotUpper);
    assert forall i :: 0 <= i < |NameToSlug(lowered)| ==> NotUpper(NameToSlug(lowered)[i]);
  }

  /** A decoded category has no upper-case letter. */
  lemma SlugToCategoryIsLower(slug: string)
    ensures SlugToCategory(slug).Some? ==> HasNoUpper(SlugToCategory(slug).value)
  {
    var d := Uri.DecodeUriComponent(slug);
    if d.Some? {
      var lowered := ToLower(ReplaceChar(d.value, '-', ' '));
      assert forall i :: 0 <= i < |lowered| ==> NotUpper(lowered[i]);
      TrimPreserves(lowered, NotUpper);
    }
  }

  lemma CategoryToSlugOfLower(c: string)
    requires HasNoUpper(c)
    ensures CategoryToSlug(c) == NameToSlug(c)
  {
    CategoryToSlugIsNameToSlugOfLower(c);
    ToLowerOfLower(c);
  }

  /** A lower-case simple category name's slug is the name with dashes for spaces. */
  lemma CategorySlugOfSimpleName(c: string)
    requires IsSimpleName(c) && HasNoUpper(c)
    ensures CategoryToSlug(c) == ReplaceChar(c, ' ', '-')
  {
    CategoryToSlugOfLower(c);
    NameToSlugOfSimpleName(c);
  }

  /** Lower-case simple category names survive the category slug round trip. */
  lemma CategoryRoundTrip(c: string)
    requires IsSimpleName(c) && HasNoUpper(c)
    ensures SlugToCategory(CategoryToSlug(c)) == Some(c)
  {
    CategorySlugOfSimpleName(c);
    DashedSimpleNameIsSlug(c);
    SlugToCategoryOfSlug(ReplaceChar(c, ' ', '-'));
    UndashSimpleName(c);
    ToLowerOfLower(c);
    TrimOfTrimmed(c);
  }

  // ---------------------------------------------------------------------------
  // The documented examples

  lemma LavenderIsSimple()
    ensures IsSimpleName("Lavender Scented Candle")
    ensures ReplaceChar("Lavender Scented Candle", ' ', '-') == "Lavender-Scented-Candle"
  {
  }

  lemma NameExamples()
    ensures NameToSlug("Lavender Scented Candle") == "Lavender-Scented-Candle"
    ensures SlugToName("Lavender-Scented-Candle") == Some("Lavender Scented Candle")
  {
    LavenderIsSimple();
    NameToSlugOfSimpleName("Lavender Scented Candle");
    SlugRoundTrip("Lavender Scented Candle");
  }

  lemma GiftBoxIsSimple()
    ensures IsSimpleName("gift box") && HasNoUpper("gift box")
    ensures ReplaceChar("gift box", ' ', '-') == "gift-box"
    ensures ToLower("Gift Box") == "gift box"
  {
  }

  lemma CategoryExamples()
    ensures CategoryToSlug("gift box") == "gift-box"
    ensures CategoryToSlug("Gift Box") == "gift-box"
    ensures SlugToCategory("gift-box") == Some("gift box")
  {
    GiftBoxIsSimple();
    CategorySlugOfSimpleName("gift box");
    CategoryRoundTrip("gift box");
    CategoryToSlugIsNameToSlugOfLower("Gift Box");
    CategoryToSlugOfLower("gift box");
  }
}
