/**
 * `generateSlug` of the room routes:
 *   name.toLowerCase().replace(/[^a-z0-9]+/g, '-').replace(/^-|-$/g, '')
 * written as three string functions, with the shape of its output, the
 * letters it keeps, and its idempotence proved.
 */
module Slug {
  import Text

  predicate IsSlugAlnum(c: char) {
    'a' <= c <= 'z' || '0' <= c <= '9'
  }

  /** Drops the leading run of characters outside `[a-z0-9]`. */
  function SkipRun(s: string): (r: string)
    ensures |r| <= |s|
    ensures r == [] || IsSlugAlnum(r[0])
    decreases |s|
  {
    if s != [] && !IsSlugAlnum(s[0]) then SkipRun(s[1..]) else s
  }

  /** `replace(/[^a-z0-9]+/g, '-')`: every maximal run outside `[a-z0-9]` becomes one `-`. */
  function Collapse(s: string): string
    decreases |s|
  {
    if s == [] then []
    else if IsSlugAlnum(s[0]) then [s[0]] + Collapse(s[1..])
    else "-" + Collapse(SkipRun(s[1..]))
  }

  /** What `Collapse` leaves: only `[a-z0-9-]`, never `--`, and no leading `-` when the input starts alphanumeric. */
  lemma {:induction false} CollapseShape(s: string)
    ensures forall i :: 0 <= i < |Collapse(s)| ==> IsSlugAlnum(Collapse(s)[i]) || Collapse(s)[i] == '-'
    ensures forall i :: 0 <= i < |Collapse(s)| - 1 ==> Collapse(s)[i] == '-' ==> Collapse(s)[i + 1] != '-'
    ensures s != [] && IsSlugAlnum(s[0]) ==> Collapse(s) != [] && Collapse(s)[0] != '-'
    decreases |s|
  {
    if s != [] {
      if IsSlugAlnum(s[0]) {
        CollapseShape(s[1..]);
      } else {
        CollapseShape(SkipRun(s[1..]));
      }
    }
  }

  /** `replace(/^-|-$/g, '')`: drops one leading and one trailing `-`. */
  function StripEdgeDashes(s: string): string {
    var t := if |s| > 0 && s[0] == '-' then s[1..] else s;
    if |t| > 0 && t[|t| - 1] == '-' then t[..|t| - 1] else t
  }

  /** The output of `generateSlug`: characters from `[a-z0-9-]`, no `--`, no `-` at either end. */
  ghost predicate IsSlug(s: string) {
    && (forall i :: 0 <= i < |s| ==> IsSlugAlnum(s[i]) || s[i] == '-')
    && (forall i :: 0 <= i < |s| - 1 ==> s[i] == '-' ==> s[i + 1] != '-')
    && (|s| > 0 ==> s[0] != '-' && s[|s| - 1] != '-')
  }

  function GenerateSlug(name: string): (r: string)
    ensures IsSlug(r)
  {
    var c := Collapse(Text.Lower(name));
    CollapseShape(Text.Lower(name));
    var t := if |c| > 0 && c[0] == '-' then c[1..] else c;
    assert |t| > 0 ==> t[0] != '-';
    StripEdgeDashes(c)
  }

  /** The `[a-z0-9]` characters of `s`, in order. */
  function Alnums(s: string): string
    decreases |s|
  {
    if s == [] then [] else (if IsSlugAlnum(s[0]) then [s[0]] else []) + Alnums(s[1..])
  }

  /** `s` with every `-` deleted. */
  function RemoveDashes(s: string): string
    decreases |s|
  {
    if s == [] then [] else (if s[0] == '-' then [] else [s[0]]) + RemoveDashes(s[1..])
  }

  lemma {:induction false} RemoveDashesAppend(a: string, b: string)
    ensures RemoveDashes(a + b) == RemoveDashes(a) + RemoveDashes(b)
    decreases |a|
  {
    if a != [] {
      var head := if a[0] == '-' then [] else [a[0]];
      assert (a + b)[0] == a[0];
      assert (a + b)[1..] == a[1..] + b;
      RemoveDashesAppend(a[1..], b);
      calc {
        RemoveDashes(a + b);
        head + RemoveDashes(a[1..] + b);
        head + (RemoveDashes(a[1..]) + RemoveDashes(b));
        (head + RemoveDashes(a[1..])) + RemoveDashes(b);
        RemoveDashes(a) + RemoveDashes(b);
      }
    } else {
      assert a + b == b;
    }
  }

  lemma {:induction false} AlnumsSkipRun(s: string)
    ensures Alnums(SkipRun(s)) == Alnums(s)
    decreases |s|
  {
    if s != [] && !IsSlugAlnum(s[0]) {
      AlnumsSkipRun(s[1..]);
    }
  }

  /** Collapsing runs only trades non-alphanumeric characters for dashes. */
  lemma {:induction false} RemoveDashesCollapse(s: string)
    ensures RemoveDashes(Collapse(s)) == Alnums(s)
    decreases |s|
  {
    if s != [] {
      if IsSlugAlnum(s[0]) {
        RemoveDashesCollapse(s[1..]);
        RemoveDashesAppend([s[0]], Collapse(s[1..]));
      } else {
        var rest := SkipRun(s[1..]);
        RemoveDashesCollapse(rest);
        AlnumsSkipRun(s[1..]);
        RemoveDashesAppend("-", Collapse(rest));
      }
    }
  }

  lemma RemoveDashesStrip(s: string)
    ensures RemoveDashes(StripEdgeDashes(s)) == RemoveDashes(s)
  {
    var t := if |s| > 0 && s[0] == '-' then s[1..] else s;
    if |s| > 0 && s[0] == '-' {
      assert s == "-" + t;
      RemoveDashesAppend("-", t);
    }
    if |t| > 0 && t[|t| - 1] == '-' {
      assert t == t[..|t| - 1] + "-";
      RemoveDashesAppend(t[..|t| - 1], "-");
    }
  }

  /** Deleting the dashes of a slug gives exactly the `[a-z0-9]` characters of the lower-cased name. */
  lemma SlugKeepsAlnums(name: string)
    ensures RemoveDashes(GenerateSlug(name)) == Alnums(Text.Lower(name))
  {
    RemoveDashesCollapse(Text.Lower(name));
    RemoveDashesStrip(Collapse(Text.Lower(name)));
  }

  lemma {:induction false} SkipRunOfSlug(s: string)
    requires s == [] || IsSlugAlnum(s[0])
    ensures SkipRun(s) == s
  {
  }

  /** On text with no upper-case letters, no `--` and only `[a-z0-9-]`, collapsing changes nothing. */
  lemma {:induction false} CollapseOfSlug(s: string)
    requires forall i :: 0 <= i < |s| ==> IsSlugAlnum(s[i]) || s[i] == '-'
    requires forall i :: 0 <= i < |s| - 1 ==> s[i] == '-' ==> s[i + 1] != '-'
    ensures Collapse(s) == s
    decreases |s|
  {
    if s != [] {
      CollapseOfSlug(s[1..]);
      if !IsSlugAlnum(s[0]) {
        SkipRunOfSlug(s[1..]);
      }
    }
  }

  lemma LowerOfSlug(s: string)
    requires forall i :: 0 <= i < |s| ==> IsSlugAlnum(s[i]) || s[i] == '-'
    ensures Text.Lower(s) == s
  {
  }

  /** `generateSlug` is idempotent. */
  lemma SlugIdempotent(name: string)
    ensures GenerateSlug(GenerateSlug(name)) == GenerateSlug(name)
  {
    var s := GenerateSlug(name);
    LowerOfSlug(s);
    CollapseOfSlug(s);
  }

  /** `words` joined by `sep`. */
  function Joined(words: seq<string>, sep: string): string
    decreases |words|
  {
    if |words| == 0 then [] else if |words| == 1 then words[0] else words[0] + sep + Joined(words[1..], sep)
  }

  predicate IsWord(w: string) {
    w != [] && forall i :: 0 <= i < |w| ==> IsSlugAlnum(w[i])
  }

  lemma {:induction false} CollapseWord(w: string, rest: string)
    requires forall i :: 0 <= i < |w| ==> IsSlugAlnum(w[i])
    ensures Collapse(w + rest) == w + Collapse(rest)
    decreases |w|
  {
    if w != [] {
      assert (w + rest)[1..] == w[1..] + rest;
      CollapseWord(w[1..], rest);
    } else {
      assert w + rest == rest;
    }
  }

  /** Words of `[a-z0-9]` separated by single other characters collapse to the same words joined by `-`. */
  lemma {:induction false} CollapseJoined(words: seq<string>, c: char)
    requires !IsSlugAlnum(c)
    requires forall k :: 0 <= k < |words| ==> IsWord(words[k])
    ensures Collapse(Joined(words, [c])) == Joined(words, "-")
    decreases |words|
  {
    if |words| == 1 {
      CollapseWord(words[0], []);
      assert words[0] + [] == words[0];
    } else if |words| > 1 {
      var rest := Joined(words[1..], [c]);
      CollapseJoined(words[1..], c);
      assert words[0] + [c] + rest == words[0] + ([c] + rest);
      CollapseWord(words[0], [c] + rest);
      assert ([c] + rest)[1..] == rest;
      assert rest[0] == words[1][0];
      SkipRunOfSlug(rest);
    }
  }

  lemma {:induction false} JoinedEdges(words: seq<string>)
    requires forall k :: 0 <= k < |words| ==> IsWord(words[k])
    ensures |Joined(words, "-")| > 0 ==> Joined(words, "-")[0] != '-' && Joined(words, "-")[|Joined(words, "-")| - 1] != '-'
    decreases |words|
  {
    if |words| > 1 {
      JoinedEdges(words[1..]);
    }
  }

  /** A name that lower-cases to words separated by spaces has those words joined by `-` as its slug. */
  lemma SlugOfWords(name: string, words: seq<string>)
    requires forall k :: 0 <= k < |words| ==> IsWord(words[k])
    requires Text.Lower(name) == Joined(words, " ")
    ensures GenerateSlug(name) == Joined(words, "-")
  {
    CollapseJoined(words, ' ');
    JoinedEdges(words);
  }

  /** The rooms of the seed data, as (name, slug) pairs. */
  const SeedRooms: seq<(string, string)> := [
    ("Our First Date", "our-first-date"),
    ("El Ain El Sokhna Trip 2025", "el-ain-el-sokhna-trip-2025"),
    ("Ain El Sokhna Trip 2025", "ain-el-sokhna-trip-2025")
  ]

  lemma LowerFirstDate(name: string)
    requires name == "Our First Date"
    ensures Text.Lower(name) == "our first date"
  {
  }

  lemma SpacedFirstDate()
    ensures Joined(["our", "first", "date"], " ") == "our first date"
  {
    assert Joined(["our", "first", "date"], " ") == "our first date";
  }

  lemma DashedFirstDate()
    ensures Joined(["our", "first", "date"], "-") == "our-first-date"
  {
    assert Joined(["our", "first", "date"], "-") == "our-first-date";
  }

  lemma SlugFirstDate(name: string)
    requires name == "Our First Date"
    ensures GenerateSlug(name) == "our-first-date"
  {
    assert forall k :: 0 <= k < 3 ==> IsWord(["our", "first", "date"][k]);
    LowerFirstDate(name);
    SpacedFirstDate();
    DashedFirstDate();
    SlugOfWords(name, ["our", "first", "date"]);
  }

  lemma LowerElAinElSokhna(name: string)
    requires name == "El Ain El Sokhna Trip 2025"
    ensures Text.Lower(name) == "el ain el sokhna trip 2025"
  {
  }

  lemma SpacedElAinElSokhna()
    ensures Joined(["el", "ain", "el", "sokhna", "trip", "2025"], " ") == "el ain el sokhna trip 2025"
  {
    assert Joined(["el", "ain", "el", "sokhna", "trip", "2025"], " ") == "el ain el sokhna trip 2025";
  }

  lemma DashedElAinElSokhna()
    ensures Joined(["el", "ain", "el", "sokhna", "trip", "2025"], "-") == "el-ain-el-sokhna-trip-2025"
  {
    assert Joined(["el", "ain", "el", "sokhna", "trip", "2025"], "-") == "el-ain-el-sokhna-trip-2025";
  }

  lemma SlugElAinElSokhna(name: string)
    requires name == "El Ain El Sokhna Trip 2025"
    ensures GenerateSlug(name) == "el-ain-el-sokhna-trip-2025"
  {
    assert forall k :: 0 <= k < 6 ==> IsWord(["el", "ain", "el", "sokhna", "trip", "2025"][k]);
    LowerElAinElSokhna(name);
    SpacedElAinElSokhna();
    DashedElAinElSokhna();
    SlugOfWords(name, ["el", "ain", "el", "sokhna", "trip", "2025"]);
  }

  lemma LowerAinElSokhna(name: string)
    requires name == "Ain El Sokhna Trip 2025"
    ensures Text.Lower(name) == "ain el sokhna trip 2025"
  {
  }

  lemma SpacedAinElSokhna()
    ensures Joined(["ain", "el", "sokhna", "trip", "2025"], " ") == "ain el sokhna trip 2025"
  {
    assert Joined(["ain", "el", "sokhna", "trip", "2025"], " ") == "ain el sokhna trip 2025";
  }

  lemma DashedAinElSokhna()
    ensures Joined(["ain", "el", "sokhna", "trip", "2025"], "-") == "ain-el-sokhna-trip-2025"
  {
    assert Joined(["ain", "el", "sokhna", "trip", "2025"], "-") == "ain-el-sokhna-trip-2025";
  }

  lemma SlugAinElSokhna(name: string)
    requires name == "Ain El Sokhna Trip 2025"
    ensures GenerateSlug(name) == "ain-el-sokhna-trip-2025"
  {
    assert forall k :: 0 <= k < 5 ==> IsWord(["ain", "el", "sokhna", "trip", "2025"][k]);
    LowerAinElSokhna(name);
    SpacedAinElSokhna();
    DashedAinElSokhna();
    SlugOfWords(name, ["ain", "el", "sokhna", "trip", "2025"]);
  }

  /** Every seeded slug is what `generateSlug` derives from the seeded name. */
  lemma SeedSlugs(name: string, slug: string)
    requires (name, slug) in SeedRooms
    ensures GenerateSlug(name) == slug
  {
    if name == "Our First Date" {
      SlugFirstDate(name);
    } else if name == "El Ain El Sokhna Trip 2025" {
      SlugElAinElSokhna(name);
    } else {
      SlugAinElSokhna(name);
    }
  }

  /** A name without letters or digits, once lower-cased, has the empty slug. */
  lemma EmptySlug(name: string)
    requires Alnums(Text.Lower(name)) == []
    ensures GenerateSlug(name) == ""
  {
    SlugKeepsAlnums(name);
  }
}
