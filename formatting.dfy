/** The string helpers of lib/utils.ts: `formatPhoneNumber`,
    `generateSlug` and `truncateText`. */
module Formatting {
  import opened Base
  import opened Text

  // ---------------------------------------------------------------------
  // formatPhoneNumber

  /** The decimal digits of `s` in order: `s.replace(/\D/g, '')`. */
  function DigitsOnly(s: string): (r: string)
    ensures AllDigits(r)
    ensures IsSubsequence(r, s)
  {
    FilterSubsequence(s, IsDigit);
    forall i | 0 <= i < |Filter(s, IsDigit)| ensures IsDigit(Filter(s, IsDigit)[i]) {
      FilterMembers(s, IsDigit, Filter(s, IsDigit)[i]);
    }
    Filter(s, IsDigit)
  }

  lemma DigitsOnlyAppend(a: string, b: string)
    ensures DigitsOnly(a + b) == DigitsOnly(a) + DigitsOnly(b)
  {
    FilterAppend(a, b, IsDigit);
  }

  lemma DigitsOnlyOfDigits(s: string)
    requires AllDigits(s)
    ensures DigitsOnly(s) == s
  {
    FilterKeepsAll(s, IsDigit);
  }

  /** `formatPhoneNumber`: a number with exactly ten digits is written
      "(ddd) ddd-dddd"; any other text is returned as it was given. */
  function FormatPhoneNumber(phone: string): (r: string)
    ensures |DigitsOnly(phone)| != 10 ==> r == phone
    ensures |DigitsOnly(phone)| == 10 ==>
      |r| == 14 && r[0] == '(' && r[4] == ')' && r[5] == ' ' && r[9] == '-'
      && DigitsOnly(r) == DigitsOnly(phone)
  {
    var cleaned := DigitsOnly(phone);
    if |cleaned| == 10 then
      var r := "(" + cleaned[..3] + ") " + cleaned[3..6] + "-" + cleaned[6..];
      PhoneDigits(cleaned);
      r
    else phone
  }

  lemma PhoneDigits(d: string)
    requires |d| == 10 && AllDigits(d)
    ensures DigitsOnly("(" + d[..3] + ") " + d[3..6] + "-" + d[6..]) == d
  {
    var b, e, g := d[..3], d[3..6], d[6..];
    DigitsOnlyOfDigits(b);
    DigitsOnlyOfDigits(e);
    DigitsOnlyOfDigits(g);
    var s1 := "(" + b;
    DigitsOnlyAppend("(", b);
    NoDigits("(");
    var s2 := s1 + ") ";
    DigitsOnlyAppend(s1, ") ");
    NoDigits(") ");
    var s3 := s2 + e;
    DigitsOnlyAppend(s2, e);
    var s4 := s3 + "-";
    DigitsOnlyAppend(s3, "-");
    NoDigits("-");
    DigitsOnlyAppend(s4, g);
    assert b + e + g == d;
  }

  lemma {:induction false} NoDigits(s: string)
    requires forall i :: 0 <= i < |s| ==> !IsDigit(s[i])
    ensures DigitsOnly(s) == []
  {
    if s != [] {
      NoDigits(s[1..]);
    }
  }

  /** Formatting a formatted number again changes nothing. */
  lemma {:induction false} FormatPhoneNumberIdempotent(phone: string)
    ensures FormatPhoneNumber(FormatPhoneNumber(phone)) == FormatPhoneNumber(phone)
  {
    var cleaned := DigitsOnly(phone);
    if |cleaned| == 10 {
      var r := FormatPhoneNumber(phone);
      assert DigitsOnly(r) == cleaned;
    }
  }

  // ---------------------------------------------------------------------
  // generateSlug

  /** `\w`. */
  predicate IsWordChar(c: char)
  {
    IsAsciiUpper(c) || IsAsciiLower(c) || IsDigit(c) || c == '_'
  }

  /** `[\s_-]`. */
  predicate IsSeparator(c: char)
  {
    IsSpace(c) || c == '_' || c == '-'
  }

  /** The characters a slug is made of. */
  predicate IsSlugChar(c: char)
  {
    IsAsciiLower(c) || IsDigit(c) || c == '-'
  }

  predicate IsAlnum(c: char)
  {
    IsAsciiLower(c) || IsDigit(c)
  }

  ghost predicate NoDoubleHyphen(s: string)
  {
    forall i, j :: 0 <= i < j < |s| && j == i + 1 ==> !(s[i] == '-' && s[j] == '-')
  }

  /** A well-formed slug: lower-case letters, digits and single hyphens
      between them. */
  ghost predicate IsSlug(s: string)
  {
    SlugBody(s) && (s == [] || (s[0] != '-' && s[|s| - 1] != '-'))
  }

  /** Slug characters without a double hyphen. */
  ghost predicate SlugBody(s: string)
  {
    (forall i :: 0 <= i < |s| ==> IsSlugChar(s[i])) && NoDoubleHyphen(s)
  }

  /** `.replace(/[^\w\s-]/g, '')`. */
  function KeepWordChars(s: string): (r: string)
    ensures forall c :: c in r <==> c in s && (IsWordChar(c) || IsSpace(c) || c == '-')
  {
    var p := (c: char) => IsWordChar(c) || IsSpace(c) || c == '-';
    forall c ensures c in Filter(s, p) <==> c in s && p(c) {
      FilterMembers(s, p, c);
    }
    Filter(s, p)
  }

  /** `.replace(/[\s_-]+/g, '-')`: every run of separators becomes one
      hyphen. */
  function CollapseSeparators(s: string): string
  {
    CollapseRun(s, false)
  }

  /** Collapses `s`, where `inRun` says whether the text before `s` ended
      in a separator, already turned into a hyphen. */
  function CollapseRun(s: string, inRun: bool): string
  {
    if s == [] then []
    else if !IsSeparator(s[0]) then [s[0]] + CollapseRun(s[1..], false)
    else if inRun then CollapseRun(s[1..], true)
    else "-" + CollapseRun(s[1..], true)
  }

  /** No separator but the hyphen, and never two hyphens in a row. */
  ghost predicate CollapsedForm(r: string)
  {
    (forall i :: 0 <= i < |r| ==> r[i] == '-' || !IsSeparator(r[i])) && NoDoubleHyphen(r)
  }

  /** The collapsed text has no separator but the hyphen and never two
      hyphens in a row; inside a run it does not start with a hyphen. */
  lemma {:induction false} CollapsedShape(s: string, inRun: bool)
    ensures CollapsedForm(CollapseRun(s, inRun))
    ensures inRun ==> CollapseRun(s, inRun) == [] || CollapseRun(s, inRun)[0] != '-'
    decreases |s|
  {
    if s != [] {
      var tail := CollapseRun(s[1..], IsSeparator(s[0]));
      CollapsedShape(s[1..], IsSeparator(s[0]));
      if !IsSeparator(s[0]) {
        assert CollapseRun(s, inRun) == [s[0]] + tail;
        ConsCollapsed(s[0], tail);
      } else if !inRun {
        assert CollapseRun(s, inRun) == "-" + tail;
        ConsCollapsed('-', tail);
      }
    }
  }

  lemma ConsCollapsed(head: char, tail: string)
    requires CollapsedForm(tail)
    requires head == '-' || !IsSeparator(head)
    requires head == '-' ==> tail == [] || tail[0] != '-'
    ensures CollapsedForm([head] + tail)
  {
    var r := [head] + tail;
    assert forall i :: 1 <= i < |r| ==> r[i] == tail[i - 1];
  }

  function DropLeadingHyphens(s: string): (r: string)
    ensures |r| <= |s| && r == s[|s| - |r|..]
    ensures r == [] || r[0] != '-'
  {
    if s != [] && s[0] == '-' then DropLeadingHyphens(s[1..]) else s
  }

  function DropTrailingHyphens(s: string): (r: string)
    ensures |r| <= |s| && r == s[..|r|]
    ensures r == [] || r[|r| - 1] != '-'
  {
    if s != [] && s[|s| - 1] == '-' then DropTrailingHyphens(s[..|s| - 1]) else s
  }

  /** `.replace(/^-+|-+$/g, '')`. */
  function TrimHyphens(s: string): (r: string)
    ensures r == [] || (r[0] != '-' && r[|r| - 1] != '-')
  {
    DropTrailingHyphens(DropLeadingHyphens(s))
  }

  /** `generateSlug`: lower-case, drop what is not a word character, white
      space or hyphen, turn each separator run into one hyphen, trim the
      hyphens at both ends. */
  function GenerateSlug(text: string): (r: string)
    ensures IsSlug(r)
    // the letters and digits of the slug are those of the lower-cased text, in order
    ensures Filter(r, IsAlnum) == Filter(Lower(text), IsAlnum)
  {
    var lowered := Lower(text);
    var kept := KeepWordChars(lowered);
    var collapsed := CollapseSeparators(kept);
    var r := TrimHyphens(collapsed);
    SlugChars(lowered, kept, collapsed, r);
    SlugLettersAndDigits(lowered, kept, collapsed, r);
    r
  }

  lemma SlugChars(lowered: string, kept: string, collapsed: string, r: string)
    requires forall i :: 0 <= i < |lowered| ==> !IsAsciiUpper(lowered[i])
    requires kept == KeepWordChars(lowered) && collapsed == CollapseSeparators(kept)
    requires r == TrimHyphens(collapsed)
    ensures IsSlug(r)
  {
    CollapsedSlugChars(lowered, kept);
    CollapsedShape(kept, false);
    TrimmedSlug(collapsed);
  }

  /** Collapsing the separators of the kept characters of a lower-cased
      text leaves only slug characters. */
  lemma CollapsedSlugChars(lowered: string, kept: string)
    requires forall i :: 0 <= i < |lowered| ==> !IsAsciiUpper(lowered[i])
    requires kept == KeepWordChars(lowered)
    ensures forall i :: 0 <= i < |CollapseSeparators(kept)| ==> IsSlugChar(CollapseSeparators(kept)[i])
  {
    var collapsed := CollapseSeparators(kept);
    forall i | 0 <= i < |collapsed| ensures IsSlugChar(collapsed[i]) {
      if collapsed[i] != '-' {
        CollapsedCharFrom(kept, false, i);
        var c := collapsed[i];
        assert c in lowered;
      }
    }
  }

  /** Trimming the hyphens of a text of slug characters without double
      hyphens gives a slug. */
  lemma TrimmedSlug(collapsed: string)
    requires SlugBody(collapsed)
    ensures IsSlug(TrimHyphens(collapsed))
  {
    DropLeadingKeepsBody(collapsed);
    DropTrailingKeepsBody(DropLeadingHyphens(collapsed));
  }

  lemma {:induction false} DropLeadingKeepsBody(s: string)
    requires SlugBody(s)
    ensures SlugBody(DropLeadingHyphens(s))
    decreases |s|
  {
    if s != [] && s[0] == '-' {
      InnerRange(s, 1, s[1..]);
      DropLeadingKeepsBody(s[1..]);
    }
  }

  lemma {:induction false} DropTrailingKeepsBody(s: string)
    requires SlugBody(s)
    ensures SlugBody(DropTrailingHyphens(s))
    decreases |s|
  {
    if s != [] && s[|s| - 1] == '-' {
      InnerRange(s, 0, s[..|s| - 1]);
      DropTrailingKeepsBody(s[..|s| - 1]);
    }
  }

  /** A slice of a text made of slug characters without double hyphens is
      one too. */
  lemma InnerRange(s: string, a: int, r: string)
    requires 0 <= a <= a + |r| <= |s|
    requires forall i :: 0 <= i < |r| ==> r[i] == s[a + i]
    requires SlugBody(s)
    ensures SlugBody(r)
  {
    forall i, j | 0 <= i < j < |r| && j == i + 1 ensures !(r[i] == '-' && r[j] == '-') {
      assert r[i] == s[a + i] && r[j] == s[a + j];
    }
  }

  /** A non-hyphen character of the collapsed text is a non-separator
      character of the text it came from. */
  lemma {:induction false} CollapsedCharFrom(s: string, inRun: bool, i: int)
    requires 0 <= i < |CollapseRun(s, inRun)| && CollapseRun(s, inRun)[i] != '-'
    ensures CollapseRun(s, inRun)[i] in s && !IsSeparator(CollapseRun(s, inRun)[i])
    decreases |s|
  {
    var r := CollapseRun(s, inRun);
    var tail := CollapseRun(s[1..], IsSeparator(s[0]));
    if !IsSeparator(s[0]) {
      assert r == [s[0]] + tail;
      if i > 0 {
        assert r[i] == tail[i - 1];
        CollapsedCharFrom(s[1..], false, i - 1);
        SuffixMembers(s, s[1..], r[i]);
      }
    } else if inRun {
      assert r == tail;
      CollapsedCharFrom(s[1..], true, i);
      SuffixMembers(s, s[1..], r[i]);
    } else {
      assert r == "-" + tail;
      assert r[i] == tail[i - 1];
      CollapsedCharFrom(s[1..], true, i - 1);
      SuffixMembers(s, s[1..], r[i]);
    }
  }

  lemma SuffixMembers(s: string, d: string, c: char)
    requires |d| <= |s| && d == s[|s| - |d|..] && c in d
    ensures c in s
  {
    var k :| 0 <= k < |d| && d[k] == c;
    assert s[|s| - |d| + k] == c;
  }

  lemma SlugLettersAndDigits(lowered: string, kept: string, collapsed: string, r: string)
    requires kept == KeepWordChars(lowered) && collapsed == CollapseSeparators(kept)
    requires r == TrimHyphens(collapsed)
    ensures Filter(r, IsAlnum) == Filter(lowered, IsAlnum)
  {
    KeptWordCharsKeepAlnum(lowered);
    CollapseKeepsAlnum(kept, false);
    TrimHyphensKeepsAlnum(collapsed);
  }

  lemma KeptWordCharsKeepAlnum(s: string)
    ensures Filter(KeepWordChars(s), IsAlnum) == Filter(s, IsAlnum)
  {
    FilterOfFilter(s, (c: char) => IsWordChar(c) || IsSpace(c) || c == '-', IsAlnum);
  }

  lemma TrimHyphensKeepsAlnum(s: string)
    ensures Filter(TrimHyphens(s), IsAlnum) == Filter(s, IsAlnum)
  {
    LeadingHyphensNotAlnum(s);
    TrailingHyphensNotAlnum(DropLeadingHyphens(s));
  }

  lemma {:induction false} LeadingHyphensNotAlnum(s: string)
    ensures Filter(DropLeadingHyphens(s), IsAlnum) == Filter(s, IsAlnum)
  {
    if s != [] && s[0] == '-' {
      LeadingHyphensNotAlnum(s[1..]);
    }
  }

  lemma {:induction false} TrailingHyphensNotAlnum(s: string)
    ensures Filter(DropTrailingHyphens(s), IsAlnum) == Filter(s, IsAlnum)
  {
    if s != [] && s[|s| - 1] == '-' {
      var front := s[..|s| - 1];
      TrailingHyphensNotAlnum(front);
      assert s == front + "-";
      FilterAppend(front, "-", IsAlnum);
    }
  }

  /** Filtering by `q` after filtering by a weaker `p` is filtering by `q`. */
  lemma {:induction false} FilterOfFilter<T>(s: seq<T>, p: T -> bool, q: T -> bool)
    requires forall x :: q(x) ==> p(x)
    ensures Filter(Filter(s, p), q) == Filter(s, q)
  {
    if s != [] {
      FilterOfFilter(s[1..], p, q);
      if p(s[0]) {
        assert ([s[0]] + Filter(s[1..], p))[1..] == Filter(s[1..], p);
      }
    }
  }

  lemma {:induction false} CollapseKeepsAlnum(s: string, inRun: bool)
    ensures Filter(CollapseRun(s, inRun), IsAlnum) == Filter(s, IsAlnum)
    decreases |s|
  {
    if s != [] {
      var tail := CollapseRun(s[1..], IsSeparator(s[0]));
      CollapseKeepsAlnum(s[1..], IsSeparator(s[0]));
      if !IsSeparator(s[0]) {
        assert ([s[0]] + tail)[1..] == tail;
      } else {
        SeparatorNotAlnum(s[0]);
        if !inRun {
          assert ("-" + tail)[1..] == tail;
        }
      }
    }
  }

  lemma SeparatorNotAlnum(c: char)
    requires IsSeparator(c)
    ensures !IsAlnum(c)
  {
  }

  /** A slug is its own slug: generating a slug twice is generating it once. */
  lemma GenerateSlugIdempotent(text: string)
    ensures GenerateSlug(GenerateSlug(text)) == GenerateSlug(text)
  {
    SlugUnchanged(GenerateSlug(text));
  }

  lemma SlugUnchanged(s: string)
    requires IsSlug(s)
    ensures GenerateSlug(s) == s
  {
    assert Lower(s) == s;
    FilterKeepsAll(s, (c: char) => IsWordChar(c) || IsSpace(c) || c == '-');
    CollapseUnchanged(s, false);
    assert DropLeadingHyphens(s) == s;
  }

  lemma {:induction false} CollapseUnchanged(s: string, inRun: bool)
    requires SlugBody(s) && (s == [] || s[|s| - 1] != '-')
    requires inRun ==> s == [] || s[0] != '-'
    ensures CollapseRun(s, inRun) == s
    decreases |s|
  {
    if s != [] {
      var rest := s[1..];
      InnerRange(s, 1, rest);
      if IsSeparator(s[0]) {
        assert IsSlugChar(s[0]) && IsSlugChar(s[1]) && s[1] == rest[0];
      }
      CollapseUnchanged(rest, IsSeparator(s[0]));
      assert s == [s[0]] + rest;
    }
  }

  // ---------------------------------------------------------------------
  // truncateText

  /** Where the trailing run of non-white-space characters of `s` begins. */
  function LastWordStart(s: string): (k: nat)
    ensures k <= |s|
    ensures forall i :: k <= i < |s| ==> !IsSpace(s[i])
    ensures k == 0 || IsSpace(s[k - 1])
  {
    if s == [] || IsSpace(s[|s| - 1]) then |s| else LastWordStart(s[..|s| - 1])
  }

  /** `.replace(/\s+\S*$/, '')`: removes the last run of white space and
      the word after it, when there is white space at all. */
  function DropLastWord(s: string): (r: string)
    ensures StartsWith(s, r)
    ensures (forall i :: 0 <= i < |s| ==> !IsSpace(s[i])) ==> r == s
    ensures (exists i :: 0 <= i < |s| && IsSpace(s[i])) ==>
      |r| < |s| && IsSpace(s[|r|])
      && (r == [] || !IsSpace(r[|r| - 1]))
      && (forall i, j :: |r| <= i < j < |s| && !IsSpace(s[i]) ==> !IsSpace(s[j]))
  {
    var k := LastWordStart(s);
    if k == 0 then s
    else
      var r := TrimEnd(s[..k]);
      TrimEndStripsSpace(s[..k]);
      assert forall i :: |r| <= i < k ==> IsSpace(s[i]);
      r
  }

  /** `kept`, the part of `text` left before the "..." when `text` is cut
      to `maxLength`, is a prefix ending at a word boundary: either the cut
      part had no white space and is kept whole, or `kept` stops before
      white space, does not itself end in white space, and what it drops of
      the cut part is one run of white space and at most one word after it. */
  predicate CutAtWordBoundary(text: string, maxLength: nat, kept: string)
    requires maxLength < |text|
  {
    |kept| <= maxLength && StartsWith(text, kept)
    && ((kept == text[..maxLength] && forall i :: 0 <= i < maxLength ==> !IsSpace(text[i]))
        || (|kept| < maxLength && IsSpace(text[|kept|]) && (kept == [] || !IsSpace(kept[|kept| - 1]))
            && forall i, j :: |kept| <= i < j < maxLength && !IsSpace(text[i]) ==> !IsSpace(text[j])))
  }

  /** At most one prefix is cut at the word boundary, so the predicate
      determines what `truncateText` keeps. */
  lemma CutAtWordBoundaryUnique(text: string, maxLength: nat, kept1: string, kept2: string)
    requires maxLength < |text|
    requires CutAtWordBoundary(text, maxLength, kept1) && CutAtWordBoundary(text, maxLength, kept2)
    requires |kept1| <= |kept2|
    ensures kept1 == kept2
  {
    if |kept1| < |kept2| {
      assert false;
    }
    assert kept1 == text[..|kept1|] && kept2 == text[..|kept2|];
  }

  /** `truncateText`: text that fits is returned whole; longer text is cut
      to `maxLength`, shortened to the last word boundary and marked "...". */
  function TruncateText(text: string, maxLength: nat): (r: string)
    ensures |text| <= maxLength ==> r == text
    ensures maxLength < |text| ==> 3 <= |r| && r[|r| - 3..] == "..."
    ensures maxLength < |text| ==> CutAtWordBoundary(text, maxLength, r[..|r| - 3])
  {
    if |text| <= maxLength then text
    else
      var cut := text[..maxLength];
      var kept := DropLastWord(cut);
      var r := kept + "...";
      assert r[..|r| - 3] == kept;
      assert forall i :: 0 <= i < |kept| ==> kept[i] == cut[i] == text[i];
      assert forall i :: 0 <= i < maxLength ==> cut[i] == text[i];
      r
  }
}
