/**
 * Location administration: the slug generator, and the location table
 * with its add, edit and delete rules (required fields, unique names and
 * slugs, no deletion while business days refer to a location). The
 * routes store the slug the administrator types; the generator is a
 * helper that no route calls, modelled on its own.
 */
module Admin {
  import opened Wrappers
  import opened Text
  import Forms

  /** CJK unified ideographs U+4E00 to U+9FA5. */
  predicate IsCjk(c: char) { '\U{4E00}' <= c <= '\U{9FA5}' }

  /** The characters the slug generator keeps: CJK ideographs, ASCII letters and ASCII digits. */
  predicate IsKept(c: char) { IsCjk(c) || IsAsciiLetter(c) || IsDigit(c) }

  /** A character a generated slug may hold. */
  predicate IsSlugOutput(c: char) { IsCjk(c) || IsLower(c) || IsDigit(c) || c == '-' }

  predicate NoDoubleDash(s: string) {
    forall i :: 0 <= i < |s| - 1 ==> !(s[i] == '-' && s[i + 1] == '-')
  }

  /** What a generated slug looks like: output characters, no '-' at either end, never two '-' in a row. */
  predicate IsGeneratedShape(s: string) {
    (forall i :: 0 <= i < |s| ==> IsSlugOutput(s[i]))
    && (s != [] ==> s[0] != '-' && s[|s| - 1] != '-')
    && NoDoubleDash(s)
  }

  /** First substitution: every character that is not kept becomes '-'. */
  function DashOthers(s: string): (r: string)
    ensures |r| == |s|
    ensures forall i :: 0 <= i < |s| ==> r[i] == if IsKept(s[i]) then s[i] else '-'
  {
    if s == [] then [] else [if IsKept(s[0]) then s[0] else '-'] + DashOthers(s[1..])
  }

  /** Second substitution: every run of '-' becomes a single '-'. */
  function CollapseDashes(s: string): (r: string)
    ensures s != [] ==> r != [] && r[0] == s[0]
    ensures forall c :: c in r ==> c in s
    ensures NoDoubleDash(r)
  {
    if |s| <= 1 then s
    else if s[0] == '-' && s[1] == '-' then CollapseDashes(s[1..])
    else [s[0]] + CollapseDashes(s[1..])
  }

  function LowerAll(s: string): (r: string)
    ensures |r| == |s| && forall i :: 0 <= i < |s| ==> r[i] == ToLower(s[i])
  {
    if s == [] then [] else [ToLower(s[0])] + LowerAll(s[1..])
  }

  /** `s.strip('-')`. */
  function StripDashes(s: string): string {
    TrimEnd(TrimStart(s, '-'), '-')
  }

  /** A slice of text keeps its characters and never gains a doubled dash. */
  lemma SliceShape(t: string, lo: nat, hi: nat)
    requires lo <= hi <= |t|
    requires forall i :: 0 <= i < |t| ==> IsSlugOutput(t[i])
    requires NoDoubleDash(t)
    ensures forall i :: 0 <= i < hi - lo ==> IsSlugOutput(t[lo..hi][i])
    ensures NoDoubleDash(t[lo..hi])
  {
    var u := t[lo..hi];
    forall i | 0 <= i < |u|
      ensures u[i] == t[lo + i]
    {
    }
  }

  /** Stripping '-' from both ends of text without doubled dashes gives the generated shape. */
  lemma StripDashesShape(t: string)
    requires forall i :: 0 <= i < |t| ==> IsSlugOutput(t[i])
    requires NoDoubleDash(t)
    ensures IsGeneratedShape(StripDashes(t))
  {
    var left := TrimStart(t, '-');
    CutShape(t, left, TrimEnd(left, '-'));
  }

  /** Text cut out of `t` after its leading dashes and before its trailing dashes has the generated shape. */
  lemma CutShape(t: string, left: string, r: string)
    requires forall i :: 0 <= i < |t| ==> IsSlugOutput(t[i])
    requires NoDoubleDash(t)
    requires |left| <= |t| && left == t[|t| - |left|..] && (left != [] ==> left[0] != '-')
    requires |r| <= |left| && r == left[..|r|] && (r != [] ==> r[|r| - 1] != '-')
    ensures IsGeneratedShape(r)
  {
    var lo := |t| - |left|;
    assert r == t[lo..lo + |r|];
    SliceShape(t, lo, lo + |r|);
    if r != [] {
      assert r[0] == left[0];
    }
  }

  /** `generate_slug`: dash the other characters, collapse dash runs, lower-case, strip '-' from both ends. */
  function GenerateSlug(name: string): (slug: string)
    ensures IsGeneratedShape(slug)
  {
    var t := LowerAll(CollapseDashes(DashOthers(name)));
    assert forall i :: 0 <= i < |t| ==> IsSlugOutput(t[i]) by {
      forall i | 0 <= i < |t|
        ensures IsSlugOutput(t[i])
      {
        var collapsed := CollapseDashes(DashOthers(name));
        assert collapsed[i] in collapsed;
        assert collapsed[i] in DashOthers(name);
      }
    }
    StripDashesShape(t);
    StripDashes(t)
  }

  lemma {:induction false} CollapseKeeps(s: string)
    requires NoDoubleDash(s)
    ensures CollapseDashes(s) == s
  {
    if |s| > 1 {
      CollapseKeeps(s[1..]);
      assert [s[0]] + s[1..] == s;
    }
  }

  lemma DashOthersKeeps(s: string)
    requires forall i :: 0 <= i < |s| ==> IsSlugOutput(s[i])
    ensures DashOthers(s) == s
  {
    assert forall i :: 0 <= i < |s| ==> DashOthers(s)[i] == s[i];
  }

  lemma LowerAllKeeps(s: string)
    requires forall i :: 0 <= i < |s| ==> IsSlugOutput(s[i])
    ensures LowerAll(s) == s
  {
    assert forall i :: 0 <= i < |s| ==> LowerAll(s)[i] == s[i];
  }

  /** A string of the generated shape is its own slug. */
  lemma SlugFixpoint(s: string)
    requires IsGeneratedShape(s)
    ensures GenerateSlug(s) == s
  {
    DashOthersKeeps(s);
    CollapseKeeps(s);
    LowerAllKeeps(s);
    assert TrimStart(s, '-') == s;
    assert TrimEnd(s, '-') == s;
    assert GenerateSlug(s) == StripDashes(LowerAll(CollapseDashes(DashOthers(s))));
  }

  /** `generate_slug` is idempotent. */
  lemma GenerateSlugIdempotent(name: string)
    ensures GenerateSlug(GenerateSlug(name)) == GenerateSlug(name)
  {
    SlugFixpoint(GenerateSlug(name));
  }

  /** The text without its '-' characters. */
  function Undashed(s: string): string {
    if s == [] then [] else (if s[0] == '-' then [] else [s[0]]) + Undashed(s[1..])
  }

  /** The kept characters of the text, in order. */
  function KeptOf(s: string): string {
    if s == [] then [] else (if IsKept(s[0]) then [s[0]] else []) + KeptOf(s[1..])
  }

  lemma {:induction false} UndashedAppend(a: string, b: string)
    ensures Undashed(a + b) == Undashed(a) + Undashed(b)
  {
    if a == [] {
      assert a + b == b;
    } else {
      var head := if a[0] == '-' then [] else [a[0]];
      UndashedAppend(a[1..], b);
      assert (a + b)[0] == a[0] && (a + b)[1..] == a[1..] + b;
      calc {
        Undashed(a + b);
        head + Undashed(a[1..] + b);
        head + (Undashed(a[1..]) + Undashed(b));
        (head + Undashed(a[1..])) + Undashed(b);
      }
    }
  }

  lemma {:induction false} UndashedAllDashes(s: string)
    requires forall i :: 0 <= i < |s| ==> s[i] == '-'
    ensures Undashed(s) == []
  {
    if s != [] {
      UndashedAllDashes(s[1..]);
    }
  }

  lemma {:induction false} UndashedDashOthers(s: string)
    ensures Undashed(DashOthers(s)) == KeptOf(s)
  {
    if s != [] {
      UndashedDashOthers(s[1..]);
      assert DashOthers(s)[1..] == DashOthers(s[1..]);
    }
  }

  lemma {:induction false} UndashedCollapse(s: string)
    ensures Undashed(CollapseDashes(s)) == Undashed(s)
  {
    if |s| > 1 {
      UndashedCollapse(s[1..]);
      if s[0] == '-' && s[1] == '-' {
      } else {
        assert ([s[0]] + CollapseDashes(s[1..]))[1..] == CollapseDashes(s[1..]);
      }
    }
  }

  lemma {:induction false} UndashedLower(s: string)
    ensures Undashed(LowerAll(s)) == LowerAll(Undashed(s))
  {
    if s != [] {
      UndashedLower(s[1..]);
      assert LowerAll(s)[1..] == LowerAll(s[1..]);
      if s[0] != '-' {
        assert LowerAll([s[0]] + Undashed(s[1..])) == [ToLower(s[0])] + LowerAll(Undashed(s[1..]));
      }
    }
  }

  lemma UndashedStrip(t: string)
    ensures Undashed(StripDashes(t)) == Undashed(t)
  {
    var left := TrimStart(t, '-');
    UndashedCut(t, left, TrimEnd(left, '-'));
  }

  /** Text cut out of `t` between runs of dashes has the same characters as `t` apart from dashes. */
  lemma UndashedCut(t: string, left: string, r: string)
    requires |left| <= |t| && left == t[|t| - |left|..]
    requires forall i :: 0 <= i < |t| - |left| ==> t[i] == '-'
    requires |r| <= |left| && r == left[..|r|]
    requires forall i :: |r| <= i < |left| ==> left[i] == '-'
    ensures Undashed(r) == Undashed(t)
  {
    var off := |t| - |left|;
    var front, back := t[..off], left[|r|..];
    assert t == front + left;
    assert left == r + back;
    assert forall i :: 0 <= i < |front| ==> front[i] == t[i];
    assert forall i :: 0 <= i < |back| ==> back[i] == left[|r| + i];
    LeadingDashes(front, left);
    TrailingDashes(r, back);
  }

  /** Dashes in front of some text do not show once the dashes are removed. */
  lemma LeadingDashes(a: string, b: string)
    requires forall i :: 0 <= i < |a| ==> a[i] == '-'
    ensures Undashed(a + b) == Undashed(b)
  {
    UndashedAppend(a, b);
    UndashedAllDashes(a);
  }

  /** Dashes after some text do not show once the dashes are removed. */
  lemma TrailingDashes(a: string, b: string)
    requires forall i :: 0 <= i < |b| ==> b[i] == '-'
    ensures Undashed(a + b) == Undashed(a)
  {
    UndashedAppend(a, b);
    UndashedAllDashes(b);
  }

  /** Apart from its dashes, a slug is the kept characters of the name, lower-cased, in order. */
  lemma SlugKeepsCharacters(name: string)
    ensures Undashed(GenerateSlug(name)) == LowerAll(KeptOf(name))
  {
    var t := LowerAll(CollapseDashes(DashOthers(name)));
    UndashedStrip(t);
    UndashedLower(CollapseDashes(DashOthers(name)));
    UndashedCollapse(DashOthers(name));
    UndashedDashOthers(name);
  }

  lemma {:induction false} DashOthersAppend(a: string, b: string)
    ensures DashOthers(a + b) == DashOthers(a) + DashOthers(b)
  {
    var ab := a + b;
    var joined := DashOthers(a) + DashOthers(b);
    forall i | 0 <= i < |ab|
      ensures DashOthers(ab)[i] == joined[i]
    {
      if i < |a| {
        assert ab[i] == a[i] && joined[i] == DashOthers(a)[i];
      } else {
        assert ab[i] == b[i - |a|] && joined[i] == DashOthers(b)[i - |a|];
      }
    }
    assert |DashOthers(ab)| == |joined|;
  }

  lemma LowerAllAppend(a: string, b: string)
    ensures LowerAll(a + b) == LowerAll(a) + LowerAll(b)
  {
    assert forall i :: 0 <= i < |a + b| ==> LowerAll(a + b)[i] == (LowerAll(a) + LowerAll(b))[i];
  }

  lemma LowerAround(a: string, b: string)
    ensures LowerAll(a + "-" + b) == LowerAll(a) + "-" + LowerAll(b)
  {
    var left := a + "-";
    LowerAllAppend(left, b);
    LowerAllAppend(a, "-");
    assert LowerAll("-") == "-";
  }

  /** Collapsing works piece by piece wherever the pieces do not meet dash to dash. */
  lemma {:induction false} CollapseAppend(a: string, b: string)
    requires !(a != [] && b != [] && a[|a| - 1] == '-' && b[0] == '-')
    ensures CollapseDashes(a + b) == CollapseDashes(a) + CollapseDashes(b)
  {
    var ab := a + b;
    if a == [] {
      assert ab == b;
    } else if b == [] {
      assert ab == a;
    } else if |a| == 1 {
      assert ab[0] == a[0] && ab[1] == b[0] && ab[1..] == b;
      assert CollapseDashes(ab) == [a[0]] + CollapseDashes(b);
    } else {
      var rest := a[1..];
      assert rest[|rest| - 1] == a[|a| - 1];
      CollapseAppend(rest, b);
      assert ab[0] == a[0] && ab[1] == a[1] && ab[1..] == rest + b;
      if a[0] == '-' && a[1] == '-' {
        assert CollapseDashes(ab) == CollapseDashes(rest + b);
        assert CollapseDashes(a) == CollapseDashes(rest);
      } else {
        var head := [a[0]];
        assert CollapseDashes(ab) == head + CollapseDashes(rest + b);
        assert CollapseDashes(a) == head + CollapseDashes(rest);
        assert head + (CollapseDashes(rest) + CollapseDashes(b)) == (head + CollapseDashes(rest)) + CollapseDashes(b);
      }
    }
  }

  /** A run of one or more dashes collapses to a single dash. */
  lemma {:induction false} CollapseRun(s: string)
    requires s != [] && forall i :: 0 <= i < |s| ==> s[i] == '-'
    ensures CollapseDashes(s) == "-"
  {
    if |s| > 1 {
      CollapseRun(s[1..]);
    }
  }

  /** Collapsing keeps the last character. */
  lemma {:induction false} CollapseLast(s: string)
    requires s != []
    ensures CollapseDashes(s) != [] && CollapseDashes(s)[|CollapseDashes(s)| - 1] == s[|s| - 1]
  {
    if |s| > 1 {
      CollapseLast(s[1..]);
    }
  }

  lemma {:induction false} TrimStartAppend(a: string, b: string, c: char)
    requires a != [] && a[|a| - 1] != c
    ensures TrimStart(a + b, c) == TrimStart(a, c) + b
  {
    var ab := a + b;
    assert ab[0] == a[0];
    if a[0] == c {
      var rest := a[1..];
      assert rest != [] && rest[|rest| - 1] == a[|a| - 1];
      assert ab[1..] == rest + b;
      TrimStartAppend(rest, b, c);
    }
  }

  lemma {:induction false} TrimStartKeepsLast(a: string, c: char)
    requires a != [] && a[|a| - 1] != c
    ensures TrimStart(a, c) != [] && TrimStart(a, c)[|TrimStart(a, c)| - 1] == a[|a| - 1]
  {
    if a[0] == c {
      var rest := a[1..];
      assert rest != [] && rest[|rest| - 1] == a[|a| - 1];
      TrimStartKeepsLast(rest, c);
    }
  }

  lemma {:induction false} TrimEndPrepend(a: string, b: string, c: char)
    requires b != [] && b[0] != c
    ensures TrimEnd(a + b, c) == a + TrimEnd(b, c)
  {
    if b[|b| - 1] == c {
      var init := b[..|b| - 1];
      assert init != [] && init[0] == b[0];
      TrimEndPrepend(a, init, c);
      assert (a + b)[..|a + b| - 1] == a + init;
      assert TrimEnd(a + b, c) == TrimEnd(a + init, c);
      assert TrimEnd(b, c) == TrimEnd(init, c);
    } else {
      assert (a + b)[|a + b| - 1] == b[|b| - 1];
    }
  }

  /** Before lower-casing, the dropped run between two kept characters is one '-' between the two sides. */
  lemma CollapsedRun(a: string, m: string, b: string)
    requires a != [] && IsKept(a[|a| - 1])
    requires b != [] && IsKept(b[0])
    requires m != [] && forall i :: 0 <= i < |m| ==> !IsKept(m[i])
    ensures CollapseDashes(DashOthers(a + m + b))
      == CollapseDashes(DashOthers(a)) + "-" + CollapseDashes(DashOthers(b))
  {
    var da, dm, db := DashOthers(a), DashOthers(m), DashOthers(b);
    assert DashOthers(a + m + b) == da + (dm + db) by {
      DashOthersAppend(a + m, b);
      DashOthersAppend(a, m);
    }
    assert da[|da| - 1] != '-' by {
      assert da[|da| - 1] == a[|a| - 1];
    }
    assert db[0] != '-';
    assert dm != [] && dm[|dm| - 1] == '-';
    CollapseAppend(da, dm + db);
    CollapseAppend(dm, db);
    CollapseRun(dm);
  }

  /** Stripping '-' from text that has one '-' between two sides without a dash at that join strips each side. */
  lemma StripAroundDash(la: string, lb: string)
    requires la != [] && la[|la| - 1] != '-'
    requires lb != [] && lb[0] != '-'
    ensures StripDashes(la + "-" + lb) == StripDashes(la) + "-" + StripDashes(lb)
  {
    var tail := "-" + lb;
    assert la + "-" + lb == la + tail;
    TrimStartAppend(la, tail, '-');
    var ta := TrimStart(la, '-');
    var left := ta + "-";
    assert ta + tail == left + lb;
    TrimEndPrepend(left, lb, '-');
    TrimStartKeepsLast(la, '-');
    assert TrimEnd(ta, '-') == ta;
    assert TrimStart(lb, '-') == lb;
  }

  /** Text ending in a kept character, and text starting with one, keep those ends through the substitutions and lower-casing. */
  lemma KeptEnds(a: string, b: string)
    requires a != [] && IsKept(a[|a| - 1])
    requires b != [] && IsKept(b[0])
    ensures var la := LowerAll(CollapseDashes(DashOthers(a))); la != [] && la[|la| - 1] != '-'
    ensures var lb := LowerAll(CollapseDashes(DashOthers(b))); lb != [] && lb[0] != '-'
  {
    var da := DashOthers(a);
    assert da[|da| - 1] == a[|a| - 1];
    CollapseLast(da);
    assert DashOthers(b)[0] == b[0];
  }

  /**
   * A run of characters the generator does not keep, lying between two it
   * keeps, becomes exactly one '-' in the slug, whatever its length.
   */
  lemma DroppedRunIsOneDash(a: string, m: string, b: string)
    requires a != [] && IsKept(a[|a| - 1])
    requires b != [] && IsKept(b[0])
    requires m != [] && forall i :: 0 <= i < |m| ==> !IsKept(m[i])
    ensures GenerateSlug(a + m + b) == GenerateSlug(a) + "-" + GenerateSlug(b)
  {
    var whole := a + m + b;
    var ca, cb := CollapseDashes(DashOthers(a)), CollapseDashes(DashOthers(b));
    var left := ca + "-";
    assert CollapseDashes(DashOthers(whole)) == left + cb by {
      CollapsedRun(a, m, b);
    }
    var la, lb := LowerAll(ca), LowerAll(cb);
    LowerAround(ca, cb);
    KeptEnds(a, b);
    StripAroundDash(la, lb);
    assert GenerateSlug(whole) == StripDashes(la + "-" + lb);
    assert GenerateSlug(a) == StripDashes(la);
    assert GenerateSlug(b) == StripDashes(lb);
  }

  /** A generated slug of at most 50 characters without CJK ideographs passes the location form's slug validator. */
  lemma GeneratedSlugPassesForm(name: string)
    requires GenerateSlug(name) != [] && |GenerateSlug(name)| <= 50
    requires forall i :: 0 <= i < |GenerateSlug(name)| ==> !IsCjk(GenerateSlug(name)[i])
    ensures Forms.LocationSlugValid(Some(GenerateSlug(name)))
  {
    ShapePassesForm(GenerateSlug(name));
  }

  lemma ShapePassesForm(slug: string)
    requires IsGeneratedShape(slug) && slug != [] && |slug| <= 50
    requires forall i :: 0 <= i < |slug| ==> !IsCjk(slug[i])
    ensures Forms.LocationSlugValid(Some(slug))
  {
    assert Forms.HyphenatedSlugChars(slug) by {
      forall i | 0 <= i < |slug|
        ensures Forms.IsSlugChar(slug[i]) || slug[i] == '-'
      {
        assert IsSlugOutput(slug[i]) && !IsCjk(slug[i]);
      }
    }
    Forms.LocationSlugValidIff(slug);
  }

  // ----- the location table -----

  datatype Location = Location(id: int, name: string, slug: string)

  datatype Outcome = Saved | MissingField | Clash | NotFound | HasBusinessDays

  /** Ids, names and slugs are each unique over the table. */
  predicate UniqueLocations(locs: seq<Location>) {
    forall i, j :: 0 <= i < j < |locs| ==>
      locs[i].id != locs[j].id && locs[i].name != locs[j].name && locs[i].slug != locs[j].slug
  }

  /** A location other than the one with id `except` already uses the name or the slug. */
  predicate Clashes(locs: seq<Location>, name: string, slug: string, except: Option<int>) {
    exists k :: 0 <= k < |locs| && Some(locs[k].id) != except && (locs[k].name == name || locs[k].slug == slug)
  }

  /** A submitted form value that is present and not empty. */
  predicate Filled(v: Option<string>) { v.Some? && v.value != "" }

  /** The id the database gives a new row: one more than the largest id. */
  function NextId(locs: seq<Location>): (id: int)
    ensures forall k :: 0 <= k < |locs| ==> locs[k].id < id
  {
    if locs == [] then 1
    else
      var rest := NextId(locs[..|locs| - 1]);
      var last := locs[|locs| - 1].id + 1;
      assert forall k :: 0 <= k < |locs| - 1 ==> locs[k] == locs[..|locs| - 1][k];
      if last > rest then last else rest
  }

  /** Adding a location that clashes with none keeps the table unique. */
  lemma AddKeepsUnique(locs: seq<Location>, name: string, slug: string)
    requires UniqueLocations(locs) && !Clashes(locs, name, slug, None)
    ensures UniqueLocations(locs + [Location(NextId(locs), name, slug)])
  {
    var added := locs + [Location(NextId(locs), name, slug)];
    forall i, j | 0 <= i < j < |added|
      ensures added[i].id != added[j].id && added[i].name != added[j].name && added[i].slug != added[j].slug
    {
      if j == |locs| {
        assert added[i] == locs[i];
        assert !(Some(locs[i].id) != None && (locs[i].name == name || locs[i].slug == slug));
      }
    }
  }

  /** Conversely, a location that clashes could not be added without a duplicate name or slug. */
  lemma ClashBreaksUnique(locs: seq<Location>, name: string, slug: string, id: int)
    requires Clashes(locs, name, slug, None)
    ensures !UniqueLocations(locs + [Location(id, name, slug)])
  {
    var k :| 0 <= k < |locs| && Some(locs[k].id) != None && (locs[k].name == name || locs[k].slug == slug);
    var added := locs + [Location(id, name, slug)];
    assert added[k] == locs[k] && added[|locs|] == Location(id, name, slug);
  }

  /** Renaming location `k` to a name and slug no other location uses keeps the table unique. */
  lemma RenameKeepsUnique(locs: seq<Location>, k: nat, name: string, slug: string)
    requires UniqueLocations(locs) && k < |locs|
    requires !Clashes(locs, name, slug, Some(locs[k].id))
    ensures UniqueLocations(locs[k := locs[k].(name := name, slug := slug)])
  {
    var renamed := locs[k := locs[k].(name := name, slug := slug)];
    forall i, j | 0 <= i < j < |renamed|
      ensures renamed[i].id != renamed[j].id && renamed[i].name != renamed[j].name && renamed[i].slug != renamed[j].slug
    {
      if i == k {
        assert Some(locs[j].id) != Some(locs[k].id);
      } else if j == k {
        assert Some(locs[i].id) != Some(locs[k].id);
      }
    }
  }

  /** Every business day refers to a location of the table. */
  predicate DaysReferToLocations(locs: seq<Location>, days: seq<int>) {
    forall d :: d in days ==> d in Ids(locs)
  }

  function Ids(locs: seq<Location>): set<int> {
    set k | 0 <= k < |locs| :: locs[k].id
  }

  /** Removing a location no business day refers to keeps every reference intact. */
  lemma RemoveKeepsReferences(locs: seq<Location>, days: seq<int>, k: nat)
    requires k < |locs| && DaysReferToLocations(locs, days) && locs[k].id !in days
    ensures DaysReferToLocations(locs[..k] + locs[k + 1..], days)
  {
    var rest := locs[..k] + locs[k + 1..];
    forall d | d in days
      ensures d in Ids(rest)
    {
      var m :| 0 <= m < |locs| && locs[m].id == d;
      assert m != k;
      if m < k {
        assert rest[m] == locs[m];
      } else {
        assert rest[m - 1] == locs[m];
      }
    }
    assert DaysReferToLocations(rest, days);
  }

  class LocationTable {
    var locations: seq<Location>
    /**
     * The `location_id` column of the business-day table, one entry per
     * business day. The days themselves are the cashier's records; this
     * table only keeps what the foreign key needs.
     */
    var dayLocations: seq<int>

    ghost predicate Valid()
      reads this
    {
      UniqueLocations(locations) && DaysReferToLocations(locations, dayLocations)
    }

    constructor()
      ensures Valid() && locations == [] && dayLocations == []
    {
      locations := [];
      dayLocations := [];
    }

    /**
     * A business day is stored for a location: the foreign key admits only
     * an existing location's id.
     */
    method AddBusinessDay(locationId: int) returns (ok: bool)
      requires Valid()
      modifies this`dayLocations
      ensures Valid()
      ensures ok <==> locationId in Ids(locations)
      ensures dayLocations == if ok then old(dayLocations) + [locationId] else old(dayLocations)
    {
      ok := locationId in Ids(locations);
      if ok {
        dayLocations := dayLocations + [locationId];
      }
    }

    /** The position of the location with id `id`. */
    method Find(id: int) returns (k: Option<nat>)
      ensures k.Some? ==> k.value < |locations| && locations[k.value].id == id
      ensures k.None? ==> forall m :: 0 <= m < |locations| ==> locations[m].id != id
    {
      var m := 0;
      while m < |locations|
        invariant 0 <= m <= |locations|
        invariant forall j :: 0 <= j < m ==> locations[j].id != id
      {
        if locations[m].id == id {
          return Some(m);
        }
        m := m + 1;
      }
      return None;
    }

    /** The conflict query: some location other than `except` uses the name or the slug. */
    method FindClash(name: string, slug: string, except: Option<int>) returns (found: bool)
      ensures found <==> Clashes(locations, name, slug, except)
    {
      var m := 0;
      while m < |locations|
        invariant 0 <= m <= |locations|
        invariant !Clashes(locations[..m], name, slug, except)
      {
        var l := locations[m];
        if Some(l.id) != except && (l.name == name || l.slug == slug) {
          assert locations[m] == l;
          return true;
        }
        assert forall j :: 0 <= j < m ==> locations[..m + 1][j] == locations[..m][j];
        m := m + 1;
      }
      assert locations[..m] == locations;
      return false;
    }

    /** `add_location`: refused when a field is missing or a name or slug is taken; otherwise appended. */
    method Add(name: Option<string>, slug: Option<string>) returns (r: Outcome)
      requires Valid()
      modifies this`locations
      ensures Valid()
      ensures r == MissingField <==> !Filled(name) || !Filled(slug)
      ensures r == Clash <==> Filled(name) && Filled(slug) && Clashes(old(locations), name.value, slug.value, None)
      ensures r == Saved || r == MissingField || r == Clash
      ensures r == Saved ==> locations == old(locations) + [Location(NextId(old(locations)), name.value, slug.value)]
      ensures r != Saved ==> locations == old(locations)
    {
      if !Filled(name) || !Filled(slug) {
        return MissingField;
      }
      var clash := FindClash(name.value, slug.value, None);
      if clash {
        return Clash;
      }
      AddKeepsUnique(locations, name.value, slug.value);
      var added := Location(NextId(locations), name.value, slug.value);
      assert Ids(locations) <= Ids(locations + [added]) by {
        forall x | x in Ids(locations)
          ensures x in Ids(locations + [added])
        {
          var k :| 0 <= k < |locations| && locations[k].id == x;
          assert (locations + [added])[k] == locations[k];
        }
      }
      assert DaysReferToLocations(locations + [added], dayLocations);
      locations := locations + [added];
      return Saved;
    }

    /** `edit_location`: refused when the location is missing, a field is missing, or another location uses the name or slug. */
    method Edit(id: int, name: Option<string>, slug: Option<string>) returns (r: Outcome)
      requires Valid()
      modifies this`locations
      ensures Valid()
      ensures r == NotFound <==> forall k :: 0 <= k < |old(locations)| ==> old(locations)[k].id != id
      ensures r == MissingField ==> !Filled(name) || !Filled(slug)
      ensures r == Clash ==> Filled(name) && Filled(slug) && Clashes(old(locations), name.value, slug.value, Some(id))
      ensures r == Saved || r == MissingField || r == Clash || r == NotFound
      ensures r == Saved <==> ((exists k :: 0 <= k < |old(locations)| && old(locations)[k].id == id)
                               && Filled(name) && Filled(slug) && !Clashes(old(locations), name.value, slug.value, Some(id)))
      ensures r == Saved ==> exists k :: (0 <= k < |old(locations)| && old(locations)[k].id == id
                                          && locations == old(locations)[k := Location(id, name.value, slug.value)])
      ensures r != Saved ==> locations == old(locations)
    {
      var k := Find(id);
      if k.None? {
        return NotFound;
      }
      if !Filled(name) || !Filled(slug) {
        return MissingField;
      }
      var clash := FindClash(name.value, slug.value, Some(id));
      if clash {
        return Clash;
      }
      var i := k.value;
      RenameKeepsUnique(locations, i, name.value, slug.value);
      var renamed := locations[i := locations[i].(name := name.value, slug := slug.value)];
      assert Ids(renamed) == Ids(locations) by {
        forall x
          ensures x in Ids(renamed) <==> x in Ids(locations)
        {
          if x in Ids(locations) {
            var m :| 0 <= m < |locations| && locations[m].id == x;
            assert renamed[m].id == x;
          }
          if x in Ids(renamed) {
            var m :| 0 <= m < |renamed| && renamed[m].id == x;
            assert locations[m].id == x;
          }
        }
      }
      locations := renamed;
      return Saved;
    }

    /** `delete_location`: refused while business days refer to the location. */
    method Delete(id: int) returns (r: Outcome)
      requires Valid()
      modifies this`locations
      ensures Valid()
      ensures r == NotFound <==> forall k :: 0 <= k < |old(locations)| ==> old(locations)[k].id != id
      ensures r == HasBusinessDays <==> id in dayLocations
      ensures r == Saved || r == NotFound || r == HasBusinessDays
      ensures r == Saved ==> exists k :: (0 <= k < |old(locations)| && old(locations)[k].id == id
                                          && locations == old(locations)[..k] + old(locations)[k + 1..])
      ensures r != Saved ==> locations == old(locations)
    {
      var k := Find(id);
      if k.None? {
        assert id !in Ids(locations);
        return NotFound;
      }
      if id in dayLocations {
        return HasBusinessDays;
      }
      var i := k.value;
      RemoveKeepsReferences(locations, dayLocations, i);
      var rest := locations[..i] + locations[i + 1..];
      assert UniqueLocations(rest) by {
        forall a, b | 0 <= a < b < |rest|
          ensures rest[a].id != rest[b].id && rest[a].name != rest[b].name && rest[a].slug != rest[b].slug
        {
          var a' := if a < i then a else a + 1;
          var b' := if b < i then b else b + 1;
          assert rest[a] == locations[a'] && rest[b] == locations[b'];
        }
      }
      locations := rest;
      return Saved;
    }
  }
}
