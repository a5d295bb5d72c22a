/**
 * `normalize.Path`: percent-decoding, dot segments and repeated slashes of a request path.
 */
module Path {
  import opened Strings
  import opened Escaping

  // ----- path.Clean

  /** Walks the segments, keeping the segments that lead from the start to the place reached. */
  function Resolve(segments: seq<string>, rooted: bool, at: seq<string>): seq<string> {
    if segments == [] then at
    else
      var s, rest := segments[0], segments[1..];
      if s == "" || s == "." then Resolve(rest, rooted, at)
      else if s != ".." then Resolve(rest, rooted, at + [s])
      else if at != [] && at[|at| - 1] != ".." then Resolve(rest, rooted, at[..|at| - 1])
      else if rooted then Resolve(rest, rooted, at)
      else Resolve(rest, rooted, at + [".."])
  }

  predicate Rooted(p: string) {
    HasPrefix(p, "/")
  }

  function Clean(p: string): string {
    var out := Resolve(Split(p, '/'), Rooted(p), []);
    if Rooted(p) then "/" + Join(out, '/')
    else if out == [] then "."
    else Join(out, '/')
  }

  // ----- normalize.Path

  function Decoded(p: string): string {
    match PathUnescape(p)
    case None => p
    case Some(d) => d
  }

  predicate EndsWithSlash(p: string) {
    p != "" && p[|p| - 1] == '/'
  }

  function Normal(p: string): string {
    if p == "" then "/"
    else
      var cleaned := Clean(Decoded(p));
      var led := if Rooted(cleaned) then cleaned else "/" + cleaned;
      if EndsWithSlash(p) && !EndsWithSlash(led) then led + "/" else led
  }

  /** `normalize.Path` as the program runs it, one rewriting of a local string after the other. */
  method NormalizePath(p: string) returns (cleaned: string)
    ensures cleaned == Normal(p)
  {
    if p == "" {
      return "/";
    }
    var decoded := p;
    var unescaped := PathUnescape(p);
    if unescaped.Some? {
      decoded := unescaped.value;
    }
    cleaned := Clean(decoded);
    if !HasPrefix(cleaned, "/") {
      cleaned := "/" + cleaned;
    }
    if EndsWithSlash(p) && !EndsWithSlash(cleaned) && cleaned != "/" {
      cleaned := cleaned + "/";
    }
  }

  // ----- normal forms

  /** A segment that names a place: not empty, not a dot segment, free of slashes. */
  predicate Plain(s: string) {
    s != "" && s != "." && s != ".." && '/' !in s
  }

  predicate AllPlain(segments: seq<string>) {
    forall s <- segments :: Plain(s)
  }

  /** No dot segment anywhere, and an empty segment only before the first and after the last slash. */
  ghost predicate NormalForm(r: string) {
    var segments := Split(r, '/');
    && |segments| >= 2 && segments[0] == ""
    && (forall i | 1 <= i < |segments| - 1 :: Plain(segments[i]))
    && (segments[|segments| - 1] == "" || Plain(segments[|segments| - 1]))
  }

  /** The place a rooted path leads to. */
  function Place(d: string): seq<string> {
    Resolve(Split(d, '/'), true, [])
  }

  lemma {:induction false} ResolvePlain(segments: seq<string>, at: seq<string>)
    requires AllPlain(at) && forall s <- segments :: '/' !in s
    ensures AllPlain(Resolve(segments, true, at))
  {
    if segments != [] {
      var s, rest := segments[0], segments[1..];
      if s == "" || s == "." {
        ResolvePlain(rest, at);
      } else if s != ".." {
        ResolvePlain(rest, at + [s]);
      } else if at != [] {
        assert Plain(at[|at| - 1]);
        ResolvePlain(rest, at[..|at| - 1]);
      } else {
        ResolvePlain(rest, at);
      }
    }
  }

  lemma PlacePlain(d: string)
    ensures AllPlain(Place(d))
  {
    JoinSplit(d, '/');
    ResolvePlain(Split(d, '/'), []);
  }

  /** Walking two stretches is walking one after the other. */
  lemma {:induction false} ResolveAppend(a: seq<string>, b: seq<string>, rooted: bool, at: seq<string>)
    ensures Resolve(a + b, rooted, at) == Resolve(b, rooted, Resolve(a, rooted, at))
  {
    if a == [] {
      assert a + b == b;
    } else {
      var s, rest := a[0], a[1..];
      assert (a + b)[1..] == rest + b;
      if s == "" || s == "." {
        ResolveAppend(rest, b, rooted, at);
      } else if s != ".." {
        ResolveAppend(rest, b, rooted, at + [s]);
      } else if at != [] && at[|at| - 1] != ".." {
        ResolveAppend(rest, b, rooted, at[..|at| - 1]);
      } else if rooted {
        ResolveAppend(rest, b, rooted, at);
      } else {
        ResolveAppend(rest, b, rooted, at + [".."]);
      }
    }
  }

  /** The spelling of a place: a slash before each segment, and one after the last if asked for. */
  function Spell(place: seq<string>, trailing: bool): string {
    if place == [] then "/"
    else "/" + Join(place, '/') + (if trailing then "/" else "")
  }

  lemma {:induction false} JoinEnd(place: seq<string>)
    requires AllPlain(place) && place != []
    ensures var j := Join(place, '/'); j != "" && j[|j| - 1] != '/'
  {
    assert Plain(place[0]);
    if |place| > 1 {
      JoinEnd(place[1..]);
    }
  }

  lemma SlashBehind(head: string, tail: string)
    ensures (head + ['/'] + tail) + "/" == head + ['/'] + (tail + "/")
  {
  }

  lemma ConsAppend(head: string, x: seq<string>, y: seq<string>)
    ensures [head] + (x + y) == ([head] + x) + y
  {
  }

  lemma {:induction false} SplitJoinSlash(place: seq<string>)
    requires AllPlain(place) && place != []
    ensures Split(Join(place, '/') + "/", '/') == place + [""]
  {
    assert Plain(place[0]);
    if |place| == 1 {
      SplitHead(place[0], '/', "");
      assert Join(place, '/') + "/" == place[0] + ['/'] + "";
    } else {
      var tail := Join(place[1..], '/');
      SplitJoinSlash(place[1..]);
      SlashBehind(place[0], tail);
      SplitHead(place[0], '/', tail + "/");
      ConsAppend(place[0], place[1..], [""]);
    }
  }

  lemma SplitSpell(place: seq<string>, trailing: bool)
    requires AllPlain(place)
    ensures Split(Spell(place, trailing), '/') == [""] + place + (if place == [] || trailing then [""] else [])
  {
    var r := Spell(place, trailing);
    SplitHead("", '/', r[1..]);
    assert r == "" + ['/'] + r[1..];
    if place == [] {
      assert r[1..] == "" && Split("", '/') == [""];
    } else if trailing {
      assert r[1..] == Join(place, '/') + "/";
      SplitJoinSlash(place);
      assert [""] + (place + [""]) == [""] + place + [""];
    } else {
      assert r[1..] == Join(place, '/');
      SplitJoin(place, '/');
    }
  }

  lemma PlaceOfSpell(place: seq<string>, trailing: bool)
    requires AllPlain(place)
    ensures Place(Spell(place, trailing)) == place
  {
    SplitSpell(place, trailing);
    var tail := if place == [] || trailing then [""] else [];
    assert [""] + place + tail == [""] + (place + tail);
    ResolveAppend([""], place + tail, true, []);
    ResolveAppend(place, tail, true, []);
    NamesStay(place, true, []);
  }

  lemma SpellIsNormalForm(place: seq<string>, trailing: bool)
    requires AllPlain(place)
    ensures NormalForm(Spell(place, trailing))
  {
    SplitSpell(place, trailing);
    var tail := if place == [] || trailing then [""] else [];
    var segments := [""] + place + tail;
    forall i | 1 <= i <= |place| ensures Plain(segments[i]) {
      assert segments[i] == place[i - 1];
    }
  }

  lemma SpellEnds(place: seq<string>, trailing: bool)
    requires AllPlain(place)
    ensures EndsWithSlash(Spell(place, trailing)) <==> place == [] || trailing
  {
    if place != [] {
      JoinEnd(place);
    }
  }

  /** Spelling a place and walking the spelling leads back to the place. */
  lemma PlaceSpell(place: seq<string>, trailing: bool)
    requires AllPlain(place)
    ensures Place(Spell(place, trailing)) == place
    ensures NormalForm(Spell(place, trailing))
    ensures Clean(Spell(place, trailing)) == Spell(place, false)
    ensures EndsWithSlash(Spell(place, trailing)) <==> place == [] || trailing
  {
    PlaceOfSpell(place, trailing);
    SpellIsNormalForm(place, trailing);
    SpellEnds(place, trailing);
  }

  /** On a rooted path, `Path` spells the place the decoded path leads to. */
  lemma NormalSpells(p: string)
    requires Rooted(Decoded(p))
    ensures Normal(p) == Spell(Place(Decoded(p)), EndsWithSlash(p))
  {
    var place := Place(Decoded(p));
    PlacePlain(Decoded(p));
    PlaceSpell(place, false);
    assert p != "";
  }

  /** On a rooted path the result has no dot segment and no inner empty segment, whatever it decodes to. */
  lemma NormalIsNormalForm(p: string)
    requires Rooted(Decoded(p))
    ensures NormalForm(Normal(p)) && Rooted(Normal(p))
  {
    NormalSpells(p);
    PlacePlain(Decoded(p));
    PlaceSpell(Place(Decoded(p)), EndsWithSlash(p));
  }

  /** Empty segments, `.` and `name/..` lead nowhere, anywhere in a path, rooted or not. */
  lemma DetoursVanish(a: seq<string>, name: string, b: seq<string>, rooted: bool)
    requires Plain(name)
    ensures Resolve(a + [""] + b, rooted, []) == Resolve(a + b, rooted, [])
    ensures Resolve(a + ["."] + b, rooted, []) == Resolve(a + b, rooted, [])
    ensures Resolve(a + [name, ".."] + b, rooted, []) == Resolve(a + b, rooted, [])
  {
    var at := Resolve(a, rooted, []);
    ResolveAppend(a, b, rooted, []);
    forall detour | detour in {[""], ["."], [name, ".."]}
      ensures Resolve(a + detour + b, rooted, []) == Resolve(b, rooted, Resolve(detour, rooted, at))
    {
      ResolveAppend(a + detour, b, rooted, []);
      ResolveAppend(a, detour, rooted, []);
    }
    DetourReturns(name, rooted, at);
  }

  lemma DetourReturns(name: string, rooted: bool, at: seq<string>)
    requires Plain(name)
    ensures Resolve([""], rooted, at) == Resolve(["."], rooted, at) == Resolve([name, ".."], rooted, at) == at
  {
    assert [""][1..] == [] && ["."][1..] == [];
    assert [name, ".."][1..] == [".."] && [".."][1..] == [];
    assert (at + [name])[..|at|] == at;
    assert Resolve([".."], rooted, at + [name]) == at;
  }

  function Ups(n: nat): (ups: seq<string>)
    ensures |ups| == n && forall s <- ups :: s == ".."
  {
    if n == 0 then [] else [".."] + Ups(n - 1)
  }

  /**
   * What is left of a path without detours: climbs and then names. Nothing climbs above the root, and
   * a relative path keeps its climbs.
   */
  lemma ClimbsStay(n: nat, names: seq<string>)
    requires AllPlain(names)
    ensures Resolve(Ups(n) + names, true, []) == names
    ensures Resolve(Ups(n) + names, false, []) == Ups(n) + names
  {
    Climb(n, true, 0);
    Climb(n, false, 0);
    ResolveAppend(Ups(n), names, true, []);
    ResolveAppend(Ups(n), names, false, []);
    NamesStay(names, true, []);
    NamesStay(names, false, Ups(n));
    assert [] + names == names;
  }

  lemma {:induction false} Climb(n: nat, rooted: bool, m: nat)
    ensures Resolve(Ups(n), rooted, if rooted then [] else Ups(m)) == if rooted then [] else Ups(m + n)
    decreases n
  {
    if n > 0 {
      var k := m + 1;
      UpsAppend(m);
      Climb(n - 1, rooted, k);
      assert Ups(n)[1..] == Ups(n - 1);
    }
  }

  lemma {:induction false} UpsAppend(m: nat)
    ensures Ups(m) + [".."] == Ups(m + 1)
  {
    if m > 0 {
      UpsAppend(m - 1);
      assert Ups(m) + [".."] == [".."] + (Ups(m - 1) + [".."]);
    }
  }

  lemma {:induction false} NamesStay(names: seq<string>, rooted: bool, at: seq<string>)
    requires AllPlain(names)
    ensures Resolve(names, rooted, at) == at + names
  {
    if names != [] {
      assert Plain(names[0]);
      NamesStay(names[1..], rooted, at + [names[0]]);
      assert names == [names[0]] + names[1..];
    }
  }

  // ----- applying Path twice

  function Weight(segments: seq<string>): nat {
    if segments == [] then 0 else |segments[0]| + 1 + Weight(segments[1..])
  }

  lemma {:induction false} WeightAppend(a: seq<string>, s: string)
    ensures Weight(a + [s]) == Weight(a) + |s| + 1
  {
    if a != [] {
      WeightAppend(a[1..], s);
      assert (a + [s])[1..] == a[1..] + [s];
    }
  }

  lemma {:induction false} JoinWeight(segments: seq<string>)
    requires segments != []
    ensures |Join(segments, '/')| == Weight(segments) - 1
  {
    if |segments| > 1 {
      JoinWeight(segments[1..]);
    }
  }

  lemma {:induction false} ResolveLighter(segments: seq<string>, at: seq<string>)
    ensures Weight(Resolve(segments, true, at)) <= Weight(at) + Weight(segments)
  {
    if segments != [] {
      var s, rest := segments[0], segments[1..];
      if s == "" || s == "." {
        ResolveLighter(rest, at);
      } else if s != ".." {
        WeightAppend(at, s);
        ResolveLighter(rest, at + [s]);
      } else if at != [] && at[|at| - 1] != ".." {
        WeightAppend(at[..|at| - 1], at[|at| - 1]);
        assert at[..|at| - 1] + [at[|at| - 1]] == at;
        ResolveLighter(rest, at[..|at| - 1]);
      } else {
        ResolveLighter(rest, at);
      }
    }
  }

  lemma CleanShortens(d: string)
    requires Rooted(d)
    ensures |Clean(d)| <= |d|
  {
    var rest := Split(d[1..], '/');
    assert Split(d, '/') == [""] + rest;
    assert ([""] + rest)[1..] == rest;
    JoinSplit(d[1..], '/');
    JoinWeight(rest);
    ResolveLighter(rest, []);
    if Place(d) != [] {
      JoinWeight(Place(d));
    }
  }

  lemma DecodedRooted(r: string)
    requires Rooted(r)
    ensures Rooted(Decoded(r))
  {
  }

  lemma SplitSlash(s: string)
    ensures Split(s + "/", '/') == Split(s, '/') + [""]
  {
    SplitAppend(s, '/', "");
    assert s + ['/'] + "" == s + "/";
  }

  /** A trailing slash leads nowhere. */
  lemma CleanSlash(d: string)
    requires Rooted(d)
    ensures Clean(d + "/") == Clean(d)
  {
    SplitSlash(d);
    ResolveAppend(Split(d, '/'), [""], true, []);
    assert [""][1..] == [];
  }

  /** Decoding keeps a trailing slash. */
  lemma DecodedSlash(s: string)
    ensures Decoded(s + "/") == Decoded(s) + "/"
  {
    SlashSeparates(s, "");
    assert s + "/" + "" == s + "/";
    if PathUnescape(s).Some? {
      assert "/"[1..] == "" && PathUnescape("/") == Some("/" + "");
      PathUnescapeAppend(s, "/");
    }
  }

  lemma DecodedShortens(p: string)
    ensures |Decoded(p)| <= |p|
  {
  }

  /** On a rooted path the result is never longer than the path. */
  lemma RootedShortens(r: string)
    requires Rooted(r)
    ensures |Normal(r)| <= |r|
  {
    DecodedShortens(r);
    CleanShortens(Decoded(r));
    if EndsWithSlash(r) && |r| > 1 {
      var s := r[..|r| - 1];
      assert r == s + "/" && Rooted(s);
      DecodedSlash(s);
      DecodedShortens(s);
      CleanSlash(Decoded(s));
      CleanShortens(Decoded(s));
    }
  }

  /** A second call never makes a result longer. */
  lemma NormalShortens(p: string)
    ensures |Normal(Normal(p))| <= |Normal(p)|
  {
    if p != "" {
      NormalFormIff(p);
    }
    RootedShortens(Normal(p));
  }

  /** A spelling is fixed by `Path` exactly when it has no escape left to decode, or decoding it fails. */
  lemma SpellingFixed(place: seq<string>, trailing: bool)
    requires AllPlain(place)
    ensures var r := Spell(place, trailing);
      Normal(r) == r <==> '%' !in r || PathUnescape(r).None?
  {
    var r := Spell(place, trailing);
    PlaceSpell(place, trailing);
    PathUnescapeFixed(r);
    if '%' !in r || PathUnescape(r).None? {
      assert Decoded(r) == r;
      NormalSpells(r);
    } else {
      DecodedRooted(r);
      CleanShortens(Decoded(r));
    }
  }

  /** A slash never completes an escape, so a path decodes exactly when its segments do. */
  lemma {:induction false} SlashSeparates(a: string, b: string)
    ensures PathUnescape(a + "/" + b).None? <==> PathUnescape(a).None? || PathUnescape(b).None?
  {
    var s := a + "/" + b;
    if a == "" {
      assert s[1..] == b;
    } else if a[0] != '%' {
      assert s[1..] == a[1..] + "/" + b;
      SlashSeparates(a[1..], b);
    } else if |a| >= 3 {
      assert s[1] == a[1] && s[2] == a[2] && s[3..] == a[3..] + "/" + b;
      SlashSeparates(a[3..], b);
    } else {
      assert s[|a|] == '/';
    }
  }

  /** Whether some segment does not decode. */
  predicate Broken(segments: seq<string>) {
    exists s <- segments :: PathUnescape(s).None?
  }

  predicate PercentFree(segments: seq<string>) {
    forall s <- segments :: '%' !in s
  }

  lemma {:induction false} JoinDecodes(segments: seq<string>)
    ensures PathUnescape(Join(segments, '/')).None? <==> Broken(segments)
    ensures '%' !in Join(segments, '/') <==> PercentFree(segments)
  {
    if |segments| == 1 {
      assert segments[0] in segments;
    } else if |segments| > 1 {
      assert segments == [segments[0]] + segments[1..];
      JoinDecodes(segments[1..]);
      SlashSeparates(segments[0], Join(segments[1..], '/'));
    }
  }

  lemma SpellDecodes(place: seq<string>, trailing: bool)
    ensures PathUnescape(Spell(place, trailing)).None? <==> Broken(place)
    ensures '%' !in Spell(place, trailing) <==> PercentFree(place)
  {
    var j, r := Join(place, '/'), Spell(place, trailing);
    JoinDecodes(place);
    SlashSeparates("", j);
    assert "" + "/" + j == "/" + j;
    if place != [] && trailing {
      SlashSeparates("/" + j, "");
      assert r == "/" + j + "/" + "";
    } else {
      assert r == "/" + j;
    }
  }

  /** Climbing out of a relative path leaves `..` only in front. */
  ghost predicate ClimbsFirst(at: seq<string>) {
    && (forall s <- at :: Plain(s) || s == "..")
    && (forall i, j | 0 <= j <= i < |at| && at[i] == ".." :: at[j] == "..")
  }

  lemma {:induction false} ResolveRelative(segments: seq<string>, at: seq<string>)
    requires ClimbsFirst(at) && forall s <- segments :: '/' !in s
    ensures ClimbsFirst(Resolve(segments, false, at))
  {
    if segments != [] {
      var s, rest := segments[0], segments[1..];
      if s == "" || s == "." {
        ResolveRelative(rest, at);
      } else if s != ".." {
        ResolveRelative(rest, at + [s]);
      } else if at != [] && at[|at| - 1] != ".." {
        ResolveRelative(rest, at[..|at| - 1]);
      } else {
        ResolveRelative(rest, at + [".."]);
      }
    }
  }

  /** The segments `path.Clean` keeps of a decoded path. */
  function Segments(d: string): seq<string> {
    Resolve(Split(d, '/'), Rooted(d), [])
  }

  /** The path is rooted, or goes somewhere below its start. */
  predicate LeadsDown(d: string) {
    Rooted(d) || (Segments(d) != [] && Segments(d)[0] != "..")
  }

  lemma SegmentsPlain(d: string)
    requires LeadsDown(d)
    ensures AllPlain(Segments(d))
  {
    if Rooted(d) {
      PlacePlain(d);
    } else {
      JoinSplit(d, '/');
      ResolveRelative(Split(d, '/'), []);
    }
  }

  lemma LeadsDownSpells(p: string)
    requires p != "" && LeadsDown(Decoded(p))
    ensures Normal(p) == Spell(Segments(Decoded(p)), EndsWithSlash(p))
  {
    var out := Segments(Decoded(p));
    SegmentsPlain(Decoded(p));
    if Rooted(Decoded(p)) {
      NormalSpells(p);
    } else {
      JoinEnd(out);
      JoinPlainStart(out);
    }
  }

  /** What such a path, or none, is made into. */
  lemma DownSpells(p: string)
    requires p == "" || LeadsDown(Decoded(p))
    ensures Normal(p) == Spell(Segments(Decoded(p)), EndsWithSlash(p)) && AllPlain(Segments(Decoded(p)))
  {
    if p == "" {
      assert [""][1..] == [] && Segments("") == [];
    } else {
      SegmentsPlain(Decoded(p));
      LeadsDownSpells(p);
    }
  }

  /** The two paths keep the same segments, and agree on the trailing slash (which the root always has). */
  predicate SamePath(p1: string, p2: string) {
    && Segments(Decoded(p1)) == Segments(Decoded(p2))
    && (Segments(Decoded(p1)) == [] || EndsWithSlash(p1) == EndsWithSlash(p2))
  }

  /**
   * `Path` is a canonical form: two paths that are empty, rooted or lead below their start give the
   * same result exactly when they are the same in that sense.
   */
  lemma CanonicalPath(p1: string, p2: string)
    requires p1 == "" || LeadsDown(Decoded(p1))
    requires p2 == "" || LeadsDown(Decoded(p2))
    ensures Normal(p1) == Normal(p2) <==> SamePath(p1, p2)
  {
    DownSpells(p1);
    DownSpells(p2);
    PlaceSpell(Segments(Decoded(p1)), EndsWithSlash(p1));
    PlaceSpell(Segments(Decoded(p2)), EndsWithSlash(p2));
  }

  lemma JoinPlainStart(place: seq<string>)
    requires AllPlain(place) && place != []
    ensures !Rooted(Join(place, '/'))
  {
    assert Plain(place[0]);
    assert Join(place, '/')[0] == place[0][0];
  }

  lemma SlashThenDots(tail: string)
    requires var first := Split(tail, '/')[0]; first != "" && !Plain(first)
    ensures !NormalForm("/" + tail)
  {
    SplitHead("", '/', tail);
    assert "" + ['/'] + tail == "/" + tail;
    assert ([""] + Split(tail, '/'))[1] == Split(tail, '/')[0];
  }

  /** Otherwise `path.Clean` leaves a dot segment in front. */
  lemma CleanedDots(d: string)
    requires !LeadsDown(d)
    ensures Split(Clean(d), '/')[0] in [".", ".."] && !Rooted(Clean(d))
  {
    var dots := if Segments(d) == [] then ["."] else Segments(d);
    JoinSplit(d, '/');
    ResolveRelative(Split(d, '/'), []);
    SplitJoin(dots, '/');
    SplitFirst(Clean(d), '/');
  }

  /** And the result, behind its leading slash, is not a normal form. */
  lemma LeadsUpLeavesDots(p: string)
    requires p != "" && !LeadsDown(Decoded(p))
    ensures Rooted(Normal(p)) && !NormalForm(Normal(p))
  {
    var cleaned := Clean(Decoded(p));
    CleanedDots(Decoded(p));
    SplitSlash(cleaned);
    SlashThenDots(cleaned);
    SlashThenDots(cleaned + "/");
    assert Normal(p) == "/" + cleaned || Normal(p) == "/" + (cleaned + "/");
  }

  /**
   * Whether a second call of `Path` changes nothing, read off the request path: it leads down, and
   * the segments it keeps hold no `%` or fail to decode.
   */
  predicate Settled(p: string) {
    p == "" || (LeadsDown(Decoded(p)) && (PercentFree(Segments(Decoded(p))) || Broken(Segments(Decoded(p)))))
  }

  /** Applying `Path` again to its result changes nothing exactly on settled paths, rooted or not. */
  lemma IdempotentIff(p: string)
    ensures Normal(Normal(p)) == Normal(p) <==> Settled(p)
  {
    if p == "" {
      PathUnescapeFixed("/");
      SpellingFixed([], false);
    } else if LeadsDown(Decoded(p)) {
      var out := Segments(Decoded(p));
      SegmentsPlain(Decoded(p));
      LeadsDownSpells(p);
      SpellingFixed(out, EndsWithSlash(p));
      SpellDecodes(out, EndsWithSlash(p));
    } else {
      LeadsUpLeavesDots(p);
      DecodedRooted(Normal(p));
      NormalIsNormalForm(Normal(p));
    }
  }

  /** A `%`-free decoded path stays free of `%`, so a second `Path` is the identity. */
  lemma Idempotent(p: string)
    requires Rooted(Decoded(p)) && '%' !in Decoded(p)
    ensures Normal(Normal(p)) == Normal(p)
  {
    JoinSplit(Decoded(p), '/');
    ResolveSubset(Split(Decoded(p), '/'), []);
    SplitFree(Decoded(p), '/', '%');
    IdempotentIff(p);
  }

  lemma {:induction false} ResolveSubset(segments: seq<string>, at: seq<string>)
    ensures forall s <- Resolve(segments, true, at) :: s in segments || s in at
  {
    if segments != [] {
      var s, rest := segments[0], segments[1..];
      if s == "" || s == "." {
        ResolveSubset(rest, at);
      } else if s != ".." {
        ResolveSubset(rest, at + [s]);
      } else if at != [] && at[|at| - 1] != ".." {
        ResolveSubset(rest, at[..|at| - 1]);
      } else {
        ResolveSubset(rest, at);
      }
    }
  }

  lemma {:induction false} SplitFree(s: string, sep: char, c: char)
    requires c !in s
    ensures forall part <- Split(s, sep) :: c !in part
  {
    if s != "" {
      SplitFree(s[1..], sep, c);
    }
  }

  lemma {:induction false} JoinFree(parts: seq<string>, c: char)
    requires c != '/' && forall part <- parts :: c !in part
    ensures c !in Join(parts, '/')
  {
    if |parts| > 1 {
      JoinFree(parts[1..], c);
    }
  }

  /** `Path` brings in no character but slashes. */
  lemma NormalFree(p: string, c: char)
    requires Rooted(Decoded(p)) && c != '/' && c !in Decoded(p)
    ensures c !in Normal(p)
  {
    NormalSpells(p);
    ResolveSubset(Split(Decoded(p), '/'), []);
    SplitFree(Decoded(p), '/', c);
    JoinFree(Place(Decoded(p)), c);
  }

  /**
   * For a non-empty path the result is rooted, and it is a normal form exactly when the decoded path
   * leads down: below its start if it is relative.
   */
  lemma NormalFormIff(p: string)
    requires p != ""
    ensures Rooted(Normal(p))
    ensures NormalForm(Normal(p)) <==> LeadsDown(Decoded(p))
  {
    if LeadsDown(Decoded(p)) {
      LeadsDownSpells(p);
      SegmentsPlain(Decoded(p));
      SpellIsNormalForm(Segments(Decoded(p)), EndsWithSlash(p));
    } else {
      LeadsUpLeavesDots(p);
    }
  }

  lemma SplitDots()
    ensures Split("../x", '/') == ["..", "x"]
    ensures Split("/../x", '/') == ["", "..", "x"]
  {
    assert "../x" == ".." + ['/'] + "x" && "/../x" == "" + ['/'] + "../x";
    SplitHead("x", '/', "");
    SplitHead("..", '/', "x");
    SplitHead("", '/', "../x");
  }

  lemma CleanDots()
    ensures Clean("../x") == "../x" && Clean("/../x") == "/x"
  {
    SplitDots();
    var relative, rooted := ["..", "x"], ["", "..", "x"];
    assert rooted[1..] == relative && relative[1..] == ["x"] && ["x"][1..] == [];
    assert Resolve(relative, false, []) == Resolve(["x"], false, [".."]) == relative;
    assert Resolve(rooted, true, []) == Resolve(relative, true, []) == Resolve(["x"], true, []) == ["x"];
  }

  /** A relative path can keep a leading `..`, which a second call removes. */
  lemma RelativeIsNotNormal()
    ensures Normal("../x") == "/../x" && !NormalForm("/../x")
    ensures Normal("/../x") == "/x"
  {
    PathUnescapeFixed("../x");
    PathUnescapeFixed("/../x");
    CleanDots();
    SplitDots();
    assert !Plain(["", "..", "x"][1]);
  }
}
