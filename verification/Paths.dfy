/** Convex identifiers, module paths and function paths, and the canonical form under
    which the sync client deduplicates queries. */
module Paths {
  import opened Prelude
  import opened Strings

  const MAX_IDENTIFIER_LENGTH := 64

  predicate IsAlpha(c: char) { 'a' <= c <= 'z' || 'A' <= c <= 'Z' }
  predicate IsDigit(c: char) { '0' <= c <= '9' }
  predicate IsAlnum(c: char) { IsAlpha(c) || IsDigit(c) }

  // ---- identifiers ----

  predicate ValidIdentifier(s: string) {
    && 0 < |s| <= MAX_IDENTIFIER_LENGTH
    && (IsAlpha(s[0]) || s[0] == '_')
    && (forall i :: 0 <= i < |s| ==> IsAlnum(s[i]) || s[i] == '_')
    && exists i :: 0 <= i < |s| && s[i] != '_'
  }

  /** The fast check: one pass over the characters. */
  method IsValidIdentifier(s: string) returns (ok: bool)
    ensures ok <==> ValidIdentifier(s)
  {
    if s == "" || |s| > MAX_IDENTIFIER_LENGTH {
      return false;
    }
    if !IsAlpha(s[0]) && s[0] != '_' {
      return false;
    }
    var hasNonUnderscore := false;
    for i := 0 to |s|
      invariant forall j :: 0 <= j < i ==> IsAlnum(s[j]) || s[j] == '_'
      invariant hasNonUnderscore <==> exists j :: 0 <= j < i && s[j] != '_'
    {
      var c := s[i];
      if IsAlpha(c) || IsDigit(c) {
        hasNonUnderscore := true;
      } else if c != '_' {
        return false;
      }
    }
    return hasNonUnderscore;
  }

  /** The outcomes of ValidateIdentifier; LastReturn is the statement after all checks. */
  datatype IdentifierCheck = Accepted | Empty | TooLong | BadFirst | BadCharacter | OnlyUnderscores | LastReturn

  /** The step-by-step diagnosis only ever runs on rejected names and always finds the
      reason, so its last return is unreachable. */
  method ValidateIdentifier(s: string) returns (r: IdentifierCheck)
    ensures r == Accepted <==> ValidIdentifier(s)
    ensures r != LastReturn
    ensures r == Empty <==> s == ""
    ensures r == TooLong <==> |s| > MAX_IDENTIFIER_LENGTH
    ensures r == OnlyUnderscores ==> forall i :: 0 <= i < |s| ==> s[i] == '_'
  {
    var ok := IsValidIdentifier(s);
    if ok {
      return Accepted;
    }
    if s == "" {
      return Empty;
    }
    if |s| > MAX_IDENTIFIER_LENGTH {
      return TooLong;
    }
    var first := s[0];
    if !IsAlpha(first) && first != '_' {
      return BadFirst;
    }
    for i := 1 to |s|
      invariant forall j :: 0 <= j < i ==> IsAlnum(s[j]) || s[j] == '_'
    {
      var c := s[i];
      if !IsAlpha(c) && !IsDigit(c) && c != '_' {
        return BadCharacter;
      }
    }
    if forall i :: 0 <= i < |s| ==> s[i] == '_' {
      return OnlyUnderscores;
    }
    return LastReturn;
  }

  // ---- path.Clean and path.Ext ----

  /** Lexical processing of the components between slashes. */
  function CleanParts(parts: seq<string>, stack: seq<string>, rooted: bool): seq<string> {
    if parts == [] then stack
    else
      var p := parts[0];
      var next :=
        if p == "" || p == "." then stack
        else if p == ".." then
          if stack != [] && stack[|stack| - 1] != ".." then stack[..|stack| - 1]
          else if rooted then stack
          else stack + [".."]
        else stack + [p];
      CleanParts(parts[1..], next, rooted)
  }

  function Clean(s: string): string {
    if s == "" then "."
    else
      var rooted := s[0] == '/';
      var body := Join(CleanParts(Split(s, '/'), [], rooted), '/');
      if rooted then "/" + body else if body == "" then "." else body
  }

  /** What cleaning leaves: no empty or "." component, and ".." only as a leading run. */
  ghost predicate CleanStack(stack: seq<string>, rooted: bool) {
    && (forall i :: 0 <= i < |stack| ==> stack[i] != "" && stack[i] != "." && '/' !in stack[i])
    && (forall i, j :: 0 <= i <= j < |stack| && stack[j] == ".." ==> !rooted && stack[i] == "..")
  }

  lemma {:induction false} CleanPartsYieldsCleanStack(parts: seq<string>, stack: seq<string>, rooted: bool)
    requires forall i :: 0 <= i < |parts| ==> '/' !in parts[i]
    requires CleanStack(stack, rooted)
    ensures CleanStack(CleanParts(parts, stack, rooted), rooted)
    decreases parts
  {
    if parts != [] {
      var p := parts[0];
      if p == "" || p == "." {
        CleanPartsYieldsCleanStack(parts[1..], stack, rooted);
      } else if p == ".." {
        if stack != [] && stack[|stack| - 1] != ".." {
          CleanPartsYieldsCleanStack(parts[1..], stack[..|stack| - 1], rooted);
        } else if rooted {
          CleanPartsYieldsCleanStack(parts[1..], stack, rooted);
        } else {
          CleanPartsYieldsCleanStack(parts[1..], stack + [".."], rooted);
        }
      } else {
        CleanPartsYieldsCleanStack(parts[1..], stack + [p], rooted);
      }
    }
  }

  lemma {:induction false} CleanPartsKeepsCleanStack(parts: seq<string>, stack: seq<string>, rooted: bool)
    requires CleanStack(stack + parts, rooted)
    ensures CleanParts(parts, stack, rooted) == stack + parts
    decreases parts
  {
    var all := stack + parts;
    if parts == [] {
      assert all == stack;
    } else {
      assert all[|stack|] == parts[0];
      assert stack != [] ==> all[|stack| - 1] == stack[|stack| - 1];
      assert stack + [parts[0]] + parts[1..] == all;
      CleanPartsKeepsCleanStack(parts[1..], stack + [parts[0]], rooted);
    }
  }

  lemma JoinedStackStart(stack: seq<string>, rooted: bool)
    requires CleanStack(stack, rooted) && stack != []
    ensures var body := Join(stack, '/'); body != "" && body[0] != '/' && body[0] == stack[0][0]
  {
    assert stack[0][0] in stack[0];
  }

  /** A path is clean once it has been cleaned. */
  lemma CleanIdempotent(s: string)
    ensures Clean(Clean(s)) == Clean(s)
  {
    if s == "" {
      DotIsClean();
    } else {
      var rooted := s[0] == '/';
      var stack := CleanParts(Split(s, '/'), [], rooted);
      CleanPartsYieldsCleanStack(Split(s, '/'), [], rooted);
      if stack == [] && !rooted {
        DotIsClean();
      } else if stack == [] {
        assert Split("/", '/') == ["", ""] by {
          SplitPrefix("", "", '/');
          assert "" + "/" + "" == "/";
        }
        CleanPartsSkips([""], rooted);
        assert ["", ""][1..] == [""];
      } else {
        CleanOfStack(stack, rooted);
      }
    }
  }

  lemma CleanPartsSkips(parts: seq<string>, rooted: bool)
    requires parts == [""] || parts == ["."]
    ensures CleanParts(parts, [], rooted) == []
  {
    assert parts[1..] == [];
  }

  lemma DotIsClean()
    ensures Clean(".") == "."
  {
    SplitAtom(".", '/');
    CleanPartsSkips(["."], false);
  }

  lemma CleanOfStack(stack: seq<string>, rooted: bool)
    requires CleanStack(stack, rooted) && stack != []
    ensures var body := Join(stack, '/');
      if rooted then Clean("/" + body) == "/" + body else Clean(body) == body
  {
    var body := Join(stack, '/');
    SplitJoin(stack, '/');
    JoinedStackStart(stack, rooted);
    assert [] + stack == stack;
    CleanPartsKeepsCleanStack(stack, [], rooted);
    if rooted {
      SplitPrefix("", body, '/');
      assert "" + "/" + body == "/" + body;
      assert ([""] + stack)[1..] == stack;
    }
  }

  // ---- what a path names ----

  /** Where a walk has come to: so many levels above its start, then down these names. */
  datatype Place = Place(ups: nat, names: seq<string>)

  const HERE := Place(0, [])

  function Move(at: Place, part: string, rooted: bool): Place {
    if part == "" || part == "." then at
    else if part != ".." then at.(names := at.names + [part])
    else if at.names != [] then at.(names := at.names[..|at.names| - 1])
    else if rooted then at
    else at.(ups := at.ups + 1)
  }

  /** Following the components one after the other; nothing is above the root. */
  function Walk(at: Place, parts: seq<string>, rooted: bool): Place
    decreases parts
  {
    if parts == [] then at else Walk(Move(at, parts[0], rooted), parts[1..], rooted)
  }

  function PlaceOf(s: string): Place {
    Walk(HERE, Split(s, '/'), "/" <= s)
  }

  lemma {:induction false} WalkSnoc(at: Place, parts: seq<string>, last: string, rooted: bool)
    ensures Walk(at, parts + [last], rooted) == Move(Walk(at, parts, rooted), last, rooted)
    decreases parts
  {
    var all := parts + [last];
    if parts == [] {
      assert all[1..] == [];
    } else {
      assert all[1..] == parts[1..] + [last];
      WalkSnoc(Move(at, parts[0], rooted), parts[1..], last, rooted);
    }
  }

  lemma {:induction false} WalkUp(stack: seq<string>)
    requires forall i :: 0 <= i < |stack| ==> stack[i] == ".."
    ensures Walk(HERE, stack, false).names == []
  {
    if stack != [] {
      var n := |stack| - 1;
      WalkUp(stack[..n]);
      assert stack == stack[..n] + [stack[n]];
      WalkSnoc(HERE, stack[..n], stack[n], false);
    }
  }

  lemma WalkBack(stack: seq<string>, rooted: bool)
    requires CleanStack(stack, rooted) && stack != [] && stack[|stack| - 1] != ".."
    ensures Move(Walk(HERE, stack, rooted), "..", rooted) == Walk(HERE, stack[..|stack| - 1], rooted)
  {
    var n := |stack| - 1;
    assert stack == stack[..n] + [stack[n]];
    WalkSnoc(HERE, stack[..n], stack[n], rooted);
    var at := Walk(HERE, stack[..n], rooted);
    assert (at.names + [stack[n]])[..|at.names|] == at.names;
  }

  lemma {:induction false} CleanPartsKeepsPlace(parts: seq<string>, stack: seq<string>, rooted: bool)
    requires CleanStack(stack, rooted) && forall i :: 0 <= i < |parts| ==> '/' !in parts[i]
    ensures Walk(HERE, CleanParts(parts, stack, rooted), rooted) == Walk(Walk(HERE, stack, rooted), parts, rooted)
    decreases parts
  {
    if parts != [] {
      var p, n := parts[0], |stack| - 1;
      if p == "" || p == "." {
        CleanPartsKeepsPlace(parts[1..], stack, rooted);
      } else if p != ".." {
        WalkSnoc(HERE, stack, p, rooted);
        CleanPartsKeepsPlace(parts[1..], stack + [p], rooted);
      } else if stack != [] && stack[n] != ".." {
        WalkBack(stack, rooted);
        CleanPartsKeepsPlace(parts[1..], stack[..n], rooted);
      } else if rooted {
        CleanPartsKeepsPlace(parts[1..], stack, rooted);
      } else {
        WalkUp(stack);
        WalkSnoc(HERE, stack, "..", rooted);
        CleanPartsKeepsPlace(parts[1..], stack + [".."], rooted);
      }
    }
  }

  /** Cleaning a path does not change what it names, nor whether it is rooted. */
  lemma CleanKeepsPlace(s: string)
    ensures PlaceOf(Clean(s)) == PlaceOf(s) && ("/" <= Clean(s) <==> "/" <= s)
  {
    hide CleanParts, Walk, Split, Join;
    SplitAtom("", '/');
    SplitAtom(".", '/');
    WalkNowhere();
    StartsAtRoot(s);
    StartsAtRoot(".");
    if s != "" {
      var rooted := s[0] == '/';
      var stack := CleanParts(Split(s, '/'), [], rooted);
      CleanPartsYieldsCleanStack(Split(s, '/'), [], rooted);
      CleanPartsKeepsPlace(Split(s, '/'), [], rooted);
      CleanedParts(stack, rooted);
    }
  }

  lemma WalkNowhere()
    ensures forall rooted :: Walk(HERE, [], rooted) == HERE
    ensures forall rooted :: Walk(HERE, [""], rooted) == HERE && Walk(HERE, ["."], rooted) == HERE
  {
    assert [""][1..] == [] && ["."][1..] == [];
  }

  lemma StartsAtRoot(s: string)
    ensures "/" <= s <==> s != "" && s[0] == '/'
  {
    if s != "" {
      assert s == [s[0]] + s[1..];
    }
  }

  lemma CleanedParts(stack: seq<string>, rooted: bool)
    requires CleanStack(stack, rooted)
    ensures var body := Join(stack, '/');
      var s := if rooted then "/" + body else if body == "" then "." else body;
      PlaceOf(s) == Walk(HERE, stack, rooted) && ("/" <= s <==> rooted)
  {
    hide CleanParts, Walk, Split, Join;
    var body := Join(stack, '/');
    WalkNowhere();
    if stack == [] {
      NothingJoined();
      SplitAtom("", '/');
      SplitAtom(".", '/');
    } else {
      SplitJoin(stack, '/');
      JoinedStackStart(stack, rooted);
    }
    if rooted {
      SplitPrefix("", body, '/');
      assert "" + "/" + body == "/" + body;
      WalkFromRoot(Split(body, '/'));
    }
    StartsAtRoot(if rooted then "/" + body else if body == "" then "." else body);
  }

  lemma NothingJoined()
    ensures Join([], '/') == ""
  {
  }

  lemma WalkFromRoot(parts: seq<string>)
    ensures Walk(HERE, [""] + parts, true) == Walk(HERE, parts, true)
  {
    assert ([""] + parts)[1..] == parts;
  }

  /** path.Ext, scanning back from position i. */
  function ExtFrom(s: string, i: nat): string
    requires i <= |s|
  {
    if i == 0 || s[i - 1] == '/' then ""
    else if s[i - 1] == '.' then s[i - 1..]
    else ExtFrom(s, i - 1)
  }

  function Ext(s: string): string { ExtFrom(s, |s|) }

  lemma {:induction false} ExtOfDotFree(s: string, i: nat)
    requires i <= |s| && '.' !in s[..i]
    ensures ExtFrom(s, i) == ""
  {
    if i > 0 {
      assert s[i - 1] in s[..i];
      assert forall c :: c in s[..i - 1] ==> c in s[..i];
      ExtOfDotFree(s, i - 1);
    }
  }

  lemma {:induction false} ExtOfSuffix(s: string, ext: string, k: nat)
    requires k <= |ext| && '.' !in ext && '/' !in ext
    ensures ExtFrom(s + "." + ext, |s| + 1 + k) == "." + ext
  {
    var t := s + "." + ext;
    if k == 0 {
      assert t[|s|] == '.';
      assert t[|s|..] == "." + ext;
    } else {
      assert t[|s| + k] == ext[k - 1] && ext[k - 1] in ext;
      ExtOfSuffix(s, ext, k - 1);
    }
  }

  // ---- module paths ----

  predicate ValidComponent(s: string) {
    && |s| <= MAX_IDENTIFIER_LENGTH
    && (forall i :: 0 <= i < |s| ==> IsAlnum(s[i]) || s[i] == '_' || s[i] == '.')
    && exists i :: 0 <= i < |s| && IsAlnum(s[i])
  }

  method ValidatePathComponent(s: string) returns (ok: bool)
    ensures ok <==> ValidComponent(s)
  {
    if |s| > MAX_IDENTIFIER_LENGTH {
      return false;
    }
    var hasAlnum := false;
    for i := 0 to |s|
      invariant forall j :: 0 <= j < i ==> IsAlnum(s[j]) || s[j] == '_' || s[j] == '.'
      invariant hasAlnum <==> exists j :: 0 <= j < i && IsAlnum(s[j])
    {
      var c := s[i];
      if IsAlpha(c) || IsDigit(c) {
        hasAlnum := true;
      } else if c != '_' && c != '.' {
        return false;
      }
    }
    return hasAlnum;
  }

  function ReplaceBackslashes(s: string): string {
    seq(|s|, i requires 0 <= i < |s| => if s[i] == '\\' then '/' else s[i])
  }

  predicate Escapes(cleaned: string) {
    || cleaned == "." || "../" <= cleaned || cleaned == ".."
    || Contains(cleaned, "/../")
  }

  predicate AcceptablePart(part: string) {
    part != "" && part != "." && part != ".." && ValidComponent(part)
  }

  function ParseModulePath(s: string): Option<string> {
    if s == "" then None
    else if s[0] == '/' then None
    else
      var cleaned := Clean(ReplaceBackslashes(s));
      if Escapes(cleaned) then None
      else if exists i :: 0 <= i < |Split(cleaned, '/')| && !AcceptablePart(Split(cleaned, '/')[i]) then None
      else if Ext(cleaned) != "" && Ext(cleaned) != ".js" then None
      else Some(cleaned)
  }

  /** A path the escape test finds has a "." or ".." among its components. */
  lemma EscapesHasDots(c: string)
    requires Escapes(c)
    ensures "." in Split(c, '/') || ".." in Split(c, '/')
  {
    hide Split;
    if c == "." {
      SplitAtom(".", '/');
    } else if c == ".." {
      SplitAtom("..", '/');
    } else if "../" <= c {
      SplitPrefix("..", c[3..], '/');
      assert c == ".." + "/" + c[3..];
    } else {
      var p, rest := ContainsAt(c, "/../");
      assert c == p + "/" + (".." + "/" + rest);
      SplitAround(p, ".." + "/" + rest, '/');
      SplitPrefix("..", rest, '/');
    }
  }

  /** A clean relative stack is some levels up and then names. */
  lemma {:induction false} StackPlace(stack: seq<string>) returns (k: nat)
    requires CleanStack(stack, false)
    ensures k <= |stack| && Walk(HERE, stack, false) == Place(k, stack[k..])
    ensures forall i :: 0 <= i < |stack| ==> (stack[i] == ".." <==> i < k)
  {
    hide Walk;
    if stack == [] {
      WalkNowhere();
      k := 0;
    } else {
      var n := |stack| - 1;
      var ups := stack[n] == "..";
      assert ups ==> forall i :: 0 <= i < n ==> stack[..n][i] == "..";
      k := StackPlace(stack[..n]);
      assert ups ==> n == 0 || stack[..n][n - 1] == "..";
      assert stack == stack[..n] + [stack[n]];
      WalkSnoc(HERE, stack[..n], stack[n], false);
      if stack[n] == ".." {
        k := n + 1;
      } else {
        assert stack[..n][k..] + [stack[n]] == stack[k..];
      }
    }
  }

  /** Which texts are module paths, and which module they name: a relative path, backslashes
      read as slashes, that names something below its start by valid components, with no
      extension but ".js"; the module is the path of those components. */
  lemma ParseModulePathExactly(s: string)
    ensures var p := PlaceOf(ReplaceBackslashes(s));
      var m := Join(p.names, '/');
      ParseModulePath(s) ==
        if && s != "" && !("/" <= ReplaceBackslashes(s)) && p.ups == 0 && p.names != []
           && (forall i :: 0 <= i < |p.names| ==> ValidComponent(p.names[i]))
           && (Ext(m) == "" || Ext(m) == ".js")
        then Some(m) else None
  {
    hide Walk, CleanParts, Split, Join, Ext, ValidComponent, Escapes;
    var r := ReplaceBackslashes(s);
    StartsAtRoot(r);
    if s != "" && r[0] == '/' {
      RootedIsRefused(r);
    } else if s != "" {
      var stack := CleanParts(Split(r, '/'), [], false);
      CleanPartsYieldsCleanStack(Split(r, '/'), [], false);
      CleanPartsKeepsPlace(Split(r, '/'), [], false);
      WalkNowhere();
      var k := StackPlace(stack);
      if k > 0 || stack == [] {
        UpwardsEscapes(stack);
      } else {
        DownwardsIsAccepted(stack);
      }
    }
  }

  lemma RootedIsRefused(r: string)
    requires r != "" && r[0] == '/'
    ensures Split(Clean(r), '/')[0] == "" && !AcceptablePart("")
  {
    hide CleanParts;
    var body := Join(CleanParts(Split(r, '/'), [], true), '/');
    SplitPrefix("", body, '/');
    assert "" + "/" + body == "/" + body;
  }

  lemma UpwardsEscapes(stack: seq<string>)
    requires stack == [] || stack[0] == ".."
    ensures var body := Join(stack, '/'); Escapes(if body == "" then "." else body)
  {
    hide Contains;
    if |stack| > 1 {
      assert "../" <= Join(stack, '/');
    }
  }

  lemma DownwardsIsAccepted(stack: seq<string>)
    requires CleanStack(stack, false) && stack != [] && forall i :: 0 <= i < |stack| ==> stack[i] != ".."
    ensures var body := Join(stack, '/');
      && body != "" && Split(body, '/') == stack && !Escapes(body) && stack[0..] == stack
      && forall i :: 0 <= i < |stack| ==> (AcceptablePart(stack[i]) <==> ValidComponent(stack[i]))
  {
    hide Split, Join, Escapes;
    SplitJoin(stack, '/');
    JoinedStackStart(stack, false);
    if Escapes(Join(stack, '/')) {
      EscapesHasDots(Join(stack, '/'));
    }
  }

  lemma AcceptablePartAvoids(part: string, c: char)
    requires AcceptablePart(part) && !IsAlnum(c) && c != '_' && c != '.'
    ensures c !in part
  {
  }

  /** Clean accepted paths contain no character outside components and slashes. */
  lemma AcceptedAvoids(m: string, c: char)
    requires forall i :: 0 <= i < |Split(m, '/')| ==> AcceptablePart(Split(m, '/')[i])
    requires c != '/' && c != '_' && c != '.' && !IsAlnum(c)
    ensures c !in m
  {
    var parts := Split(m, '/');
    forall i | 0 <= i < |parts| ensures c !in parts[i] {
      AcceptablePartAvoids(parts[i], c);
    }
    JoinAvoids(parts, '/', c);
    JoinSplit(m, '/');
  }

  lemma CleanOfAcceptable(m: string)
    requires forall i :: 0 <= i < |Split(m, '/')| ==> AcceptablePart(Split(m, '/')[i])
    ensures m != "" && m[0] != '/' && ReplaceBackslashes(m) == m && Clean(m) == m
  {
    AcceptedAvoids(m, '\\');
    var parts := Split(m, '/');
    JoinSplit(m, '/');
    CleanOfStack(parts, false);
    JoinedStackStart(parts, false);
  }

  /** An accepted module path parses to itself. */
  lemma ParseModulePathFixedPoint(s: string)
    requires ParseModulePath(s).Some?
    ensures ParseModulePath(ParseModulePath(s).value) == ParseModulePath(s)
  {
    CleanOfAcceptable(ParseModulePath(s).value);
  }

  /** The module path with an explicit extension. */
  function CanonicalModule(m: string): string {
    if Ext(m) == "" then m + ".js" else m
  }

  // ---- function paths ----

  datatype UDFPath = UDFPath(mod: string, fn: Option<string>) {
    function ToString(): string {
      match fn
      case None => mod
      case Some(f) => mod + ":" + f
    }
  }

  function ParseUDFPath(s: string): Option<UDFPath> {
    var index := LastIndex(s, ':');
    if index >= 0 && !ValidIdentifier(s[index + 1..]) then None
    else
      match ParseModulePath(if index >= 0 then s[..index] else s)
      case None => None
      case Some(m) => Some(UDFPath(m, if index >= 0 then Some(s[index + 1..]) else None))
  }

  /** Printing an accepted path and parsing it again gives the same path. */
  lemma ParseUDFPathInvertsToString(s: string)
    requires ParseUDFPath(s).Some?
    ensures ParseUDFPath(ParseUDFPath(s).value.ToString()) == ParseUDFPath(s)
  {
    var u := ParseUDFPath(s).value;
    var index := LastIndex(s, ':');
    ParseModulePathFixedPoint(if index >= 0 then s[..index] else s);
    AcceptedAvoids(u.mod, ':');
    match u.fn
    case None =>
    case Some(f) =>
      PrintedParts(u.mod, f);
  }

  lemma PrintedParts(m: string, f: string)
    requires ':' !in f
    ensures var s := m + ":" + f;
      LastIndex(s, ':') == |m| && s[..|m|] == m && s[|m| + 1..] == f
  {
    LastIndexOf(m, f, ':');
  }

  /** A function path with explicit extension and function name. */
  function Canonicalize(u: UDFPath): (string, string) {
    (CanonicalModule(u.mod), if u.fn.Some? then u.fn.value else "default")
  }

  /** One module path is the other with the extension left out. */
  predicate LeavesOutExtension(m: string, n: string) {
    Ext(m) == "" && n == m + ".js"
  }

  /** Canonicalization is not one-to-one: it identifies exactly the paths that differ in a
      left-out ".js" or a left-out "default". */
  lemma CanonicalizeCollapses(u: UDFPath, v: UDFPath)
    ensures Canonicalize(u) == Canonicalize(v) <==>
      && (u.mod == v.mod || LeavesOutExtension(u.mod, v.mod) || LeavesOutExtension(v.mod, u.mod))
      && (u.fn == v.fn || (u.fn == None && v.fn == Some("default")) || (u.fn == Some("default") && v.fn == None))
  {
    JsExtension(u.mod);
    JsExtension(v.mod);
    var m, n := u.mod + ".js", v.mod + ".js";
    assert m[..|u.mod|] == u.mod && n[..|v.mod|] == v.mod;
  }

  lemma JsExtension(m: string)
    ensures Ext(m + ".js") == ".js"
  {
    ExtOfSuffix(m, "js", 2);
    assert m + "." + "js" == m + ".js";
  }

  const SOURCE_EXTENSIONS: seq<string> := [".ts", ".tsx", ".jsx", ".mts", ".mjs", ".cts", ".cjs"]

  function TrimExtensions(file: string, exts: seq<string>): string
    decreases exts
  {
    if exts == [] then file else TrimExtensions(TrimSuffix(file, exts[0]), exts[1..])
  }

  function ParseFunctionPath(s: string): Option<string> {
    if "api." <= s || "internal." <= s then
      var parts := Split(s, '.');
      if |parts| < 3 then None
      else
        var normalized := Join(parts[1..|parts| - 1], '/') + ":" + parts[|parts| - 1];
        if ParseUDFPath(normalized).None? then None else Some(normalized)
    else
      var (file, exported) := Cut(s, ':');
      var trimmed := TrimSpace(exported);
      var name := if trimmed == "" then "default" else trimmed;
      var normalized := TrimExtensions(file, SOURCE_EXTENSIONS) + ":" + name;
      if ParseUDFPath(normalized).None? then None else Some(normalized)
  }

  /** The path under which the sync client names a function on the wire. */
  function CanonicalQueryPath(path: string): Option<string> {
    match ParseFunctionPath(path)
    case None => None
    case Some(normalized) =>
      match ParseUDFPath(normalized)
      case None => None
      case Some(u) =>
        var (mod, fn) := Canonicalize(u);
        Some(TrimSuffix(mod, ".js") + ":" + fn)
  }
}
