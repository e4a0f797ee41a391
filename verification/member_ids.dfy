/** Member id generation: `slug(name) + "-" + base36(clock)`. There are two variants,
    one in the browser store (`src/lib/memberStore.ts`), which keeps `[a-z0-9-]`, and
    one in the members API (`src/app/api/members/route.ts`), which also keeps the
    Hangul syllables U+AC00..U+D7A3. The millisecond clock is a parameter. */
module MemberIds {
  import opened Types
  import opened Text

  predicate IsHangulSyllable(c: char) {
    '\U{AC00}' <= c <= '\U{D7A3}'
  }

  /** The class `[a-z0-9-]`. */
  predicate IsSlugChar(c: char) {
    ('a' <= c <= 'z') || ('0' <= c <= '9') || c == '-'
  }

  /** The characters a slug variant keeps; `hangul` selects the members API variant. */
  predicate Kept(c: char, hangul: bool) {
    IsSlugChar(c) || (hangul && IsHangulSyllable(c))
  }

  /** `replace(/\s+/g, '-')`: each maximal run of white space becomes one hyphen.
      `inRun` says that the character before `s` was white space, whose run has
      already produced its hyphen. */
  function CollapseSpaces(s: string, inRun: bool): string {
    if s == [] then []
    else if IsSpace(s[0]) then (if inRun then [] else "-") + CollapseSpaces(s[1..], true)
    else [s[0]] + CollapseSpaces(s[1..], false)
  }

  /** `replace(/[^...]/g, '')`: drop every character the variant does not keep. */
  function Strip(s: string, hangul: bool): string {
    if s == [] then []
    else if Kept(s[0], hangul) then [s[0]] + Strip(s[1..], hangul)
    else Strip(s[1..], hangul)
  }

  function Slug(name: string, hangul: bool): string {
    Strip(CollapseSpaces(Lower(name), false), hangul)
  }

  /** The id prefix of `generateMemberId` in the browser store. */
  function StoreSlug(name: string): string {
    Slug(name, false)
  }

  /** The id prefix of `generateMemberId` in the members API. */
  function RouteSlug(name: string): string {
    Slug(name, true)
  }

  // ---------------------------------------------------------------------------
  // Number.prototype.toString(36) on a non-negative integer (ECMA-262, section
  // 21.1.3.6): most significant digit first, digits 0-9 then a-z, no leading zeros.

  predicate IsBase36Digit(c: char) {
    ('0' <= c <= '9') || ('a' <= c <= 'z')
  }

  function DigitChar(d: nat): (c: char)
    requires d < 36
    ensures IsBase36Digit(c)
  {
    if d < 10 then ('0' as int + d) as char else ('a' as int + d - 10) as char
  }

  function DigitValue(c: char): (d: nat)
    requires IsBase36Digit(c)
    ensures d < 36 && DigitChar(d) == c
  {
    if c <= '9' then c as int - '0' as int else c as int - 'a' as int + 10
  }

  function Base36(n: nat): (r: string)
    decreases n
    ensures r != []
    ensures forall i :: 0 <= i < |r| ==> IsBase36Digit(r[i])
    ensures n > 0 ==> r[0] != '0'
  {
    if n < 36 then [DigitChar(n)] else Base36(n / 36) + [DigitChar(n % 36)]
  }

  function ParseBase36(s: string): nat
    requires forall i :: 0 <= i < |s| ==> IsBase36Digit(s[i])
  {
    if s == [] then 0 else ParseBase36(s[..|s| - 1]) * 36 + DigitValue(s[|s| - 1])
  }

  /** Rendering a clock in base 36 loses nothing: reading the digits back gives it. */
  lemma {:induction false} Base36RoundTrip(n: nat)
    ensures ParseBase36(Base36(n)) == n
    decreases n
  {
    var r := Base36(n);
    if n >= 36 {
      Base36RoundTrip(n / 36);
      assert r[..|r| - 1] == Base36(n / 36);
    }
  }

  // ---------------------------------------------------------------------------
  // The generated id.

  function GenerateId(name: string, now: nat, hangul: bool): string {
    Slug(name, hangul) + "-" + Base36(now)
  }

  /** The text after the last hyphen of `s` (all of `s` if it has none). */
  function LastSegment(s: string): (r: string)
    ensures |r| <= |s| && r == s[|s| - |r|..]
    ensures |r| < |s| ==> s[|s| - |r| - 1] == '-'
    ensures forall i :: 0 <= i < |r| ==> r[i] != '-'
  {
    if s == [] || s[|s| - 1] == '-' then [] else LastSegment(s[..|s| - 1]) + [s[|s| - 1]]
  }

  lemma {:induction false} LastSegmentOfSuffix(p: string, d: string)
    requires forall i :: 0 <= i < |d| ==> d[i] != '-'
    ensures LastSegment(p + "-" + d) == d
    decreases |d|
  {
    var s := p + "-" + d;
    if d == [] {
    } else {
      assert s[..|s| - 1] == p + "-" + d[..|d| - 1];
      LastSegmentOfSuffix(p, d[..|d| - 1]);
    }
  }

  /** The clock an id was generated at, read back from its last segment. */
  function ClockOf(id: string): Option<nat> {
    var seg := LastSegment(id);
    if forall i :: 0 <= i < |seg| ==> IsBase36Digit(seg[i]) then Some(ParseBase36(seg)) else None
  }

  /** An id determines the clock it was generated at and the slug it was built from, so
      two ids generated at different milliseconds never coincide. */
  lemma GeneratedIdDecodes(name: string, now: nat, hangul: bool)
    ensures ClockOf(GenerateId(name, now, hangul)) == Some(now)
    ensures var id := GenerateId(name, now, hangul);
            id[..|id| - |Base36(now)| - 1] == Slug(name, hangul)
  {
    var d := Base36(now);
    forall i | 0 <= i < |d| ensures d[i] != '-' {
      assert IsBase36Digit(d[i]);
    }
    LastSegmentOfSuffix(Slug(name, hangul), d);
    Base36RoundTrip(now);
  }

  lemma GeneratedIdInjective(a: string, t: nat, b: string, u: nat, hangul: bool)
    requires GenerateId(a, t, hangul) == GenerateId(b, u, hangul)
    ensures t == u && Slug(a, hangul) == Slug(b, hangul)
  {
    GeneratedIdDecodes(a, t, hangul);
    GeneratedIdDecodes(b, u, hangul);
  }

  // ---------------------------------------------------------------------------
  // Properties of the slug.

  lemma {:induction false} StripKeeps(s: string, hangul: bool)
    ensures forall i :: 0 <= i < |Strip(s, hangul)| ==> Kept(Strip(s, hangul)[i], hangul)
  {
    if s != [] {
      StripKeeps(s[1..], hangul);
    }
  }

  /** A slug holds only the characters its variant keeps, hence no white space and no
      upper-case letter. */
  lemma SlugChars(name: string, hangul: bool)
    ensures forall i :: 0 <= i < |Slug(name, hangul)| ==> Kept(Slug(name, hangul)[i], hangul)
    ensures forall i :: 0 <= i < |Slug(name, hangul)| ==>
              !IsSpace(Slug(name, hangul)[i]) && !IsUpperAscii(Slug(name, hangul)[i])
  {
    StripKeeps(CollapseSpaces(Lower(name), false), hangul);
  }

  lemma {:induction false} StripAllKept(s: string, hangul: bool)
    requires forall i :: 0 <= i < |s| ==> Kept(s[i], hangul)
    ensures Strip(s, hangul) == s
  {
    if s != [] {
      StripAllKept(s[1..], hangul);
    }
  }

  lemma {:induction false} StripNoneKept(s: string, hangul: bool)
    requires forall i :: 0 <= i < |s| ==> !Kept(s[i], hangul)
    ensures Strip(s, hangul) == []
  {
    if s != [] {
      StripNoneKept(s[1..], hangul);
    }
  }

  lemma {:induction false} CollapseNoSpace(s: string)
    requires forall i :: 0 <= i < |s| ==> !IsSpace(s[i])
    ensures CollapseSpaces(s, false) == s
  {
    if s != [] {
      CollapseNoSpace(s[1..]);
    }
  }

  lemma {:induction false} CollapseRunTail(w: string, b: string)
    requires AllSpace(w)
    requires b == [] || !IsSpace(b[0])
    ensures CollapseSpaces(w + b, true) == CollapseSpaces(b, false)
  {
    if w == [] {
      assert w + b == b;
    } else {
      assert (w + b)[0] == w[0];
      assert (w + b)[1..] == w[1..] + b;
      CollapseRunTail(w[1..], b);
    }
  }

  /** A run of white space between text without white space and text that does not
      start with white space turns into exactly one hyphen. */
  lemma {:induction false} CollapseRun(a: string, w: string, b: string)
    requires forall i :: 0 <= i < |a| ==> !IsSpace(a[i])
    requires w != [] && AllSpace(w)
    requires b == [] || !IsSpace(b[0])
    ensures CollapseSpaces(a + w + b, false) == a + "-" + CollapseSpaces(b, false)
  {
    if a == [] {
      assert a + w + b == w + b;
      assert (w + b)[0] == w[0];
      assert (w + b)[1..] == w[1..] + b;
      CollapseRunTail(w[1..], b);
    } else {
      assert (a + w + b)[0] == a[0];
      assert (a + w + b)[1..] == a[1..] + w + b;
      CollapseRun(a[1..], w, b);
    }
  }

  lemma {:induction false} LowerNoUpper(s: string)
    requires forall i :: 0 <= i < |s| ==> !IsUpperAscii(s[i])
    ensures Lower(s) == s
  {
  }

  /** A string made only of kept characters is its own slug. */
  lemma SlugFixedPoint(s: string, hangul: bool)
    requires forall i :: 0 <= i < |s| ==> Kept(s[i], hangul)
    ensures Slug(s, hangul) == s
  {
    LowerNoUpper(s);
    CollapseNoSpace(s);
    StripAllKept(s, hangul);
  }

  /** Slugging a slug changes nothing. */
  lemma SlugIdempotent(name: string, hangul: bool)
    ensures Slug(Slug(name, hangul), hangul) == Slug(name, hangul)
  {
    SlugChars(name, hangul);
    SlugFixedPoint(Slug(name, hangul), hangul);
  }

  /** A name written in Hangul syllables alone loses every character in the browser
      store's variant, so its id starts with the hyphen; the members API keeps it whole. */
  lemma HangulName(name: string, now: nat)
    requires forall i :: 0 <= i < |name| ==> IsHangulSyllable(name[i])
    ensures StoreSlug(name) == []
    ensures GenerateId(name, now, false) == "-" + Base36(now)
    ensures RouteSlug(name) == name
  {
    var lowered := Lower(name);
    assert lowered == name;
    CollapseNoSpace(name);
    StripNoneKept(name, false);
    SlugFixedPoint(name, true);
  }
}
