/** The accepted spellings of one function collapse to one canonical path. */
module Spellings {
  import opened Prelude
  import opened Strings
  import opened Paths

  /** How callers write the function fn of the module a/b. */
  datatype Spelling =
    | Colon            // a/b:fn
    | Generated(root: string) // api.a.b.fn or internal.a.b.fn
    | Source(ext: string)     // a/b.ts:fn
    | Compiled         // a/b.js:fn

  predicate ValidSpelling(sp: Spelling) {
    match sp
    case Generated(root) => root == "api" || root == "internal"
    case Source(ext) => ext in SOURCE_EXTENSIONS
    case _ => true
  }

  function Spell(comps: seq<string>, fn: string, sp: Spelling): string {
    match sp
    case Colon => Join(comps, '/') + ":" + fn
    case Generated(root) => Join([root] + comps + [fn], '.')
    case Source(ext) => Join(comps, '/') + ext + ":" + fn
    case Compiled => Join(comps, '/') + ".js" + ":" + fn
  }

  predicate DotFreeModule(comps: seq<string>) {
    |comps| >= 1 && forall i :: 0 <= i < |comps| ==> ValidComponent(comps[i]) && '.' !in comps[i]
  }

  /** The two families of spellings the code refuses: an extension on a module whose whole
      path is api or internal (it is then read as a generated name with too few parts), and
      a compiled extension that makes the last component too long. */
  predicate Refused(comps: seq<string>, sp: Spelling)
    requires |comps| >= 1
  {
    || ((sp.Source? || sp.Compiled?) && (comps == ["api"] || comps == ["internal"]))
    || (sp.Compiled? && |comps[|comps| - 1]| + 3 > MAX_IDENTIFIER_LENGTH)
  }

  lemma IdentifierAvoids(fn: string, c: char)
    requires ValidIdentifier(fn) && !IsAlnum(c) && c != '_'
    ensures c !in fn
  {
  }

  lemma ModuleFacts(comps: seq<string>)
    requires DotFreeModule(comps)
    ensures var m := Join(comps, '/');
      '.' !in m && ':' !in m && Split(m, '/') == comps && Ext(m) == "" && ParseModulePath(m) == Some(m)
  {
    var m := Join(comps, '/');
    JoinAvoids(comps, '/', '.');
    JoinAvoids(comps, '/', ':');
    SplitJoin(comps, '/');
    assert m[..|m|] == m;
    ExtOfDotFree(m, |m|);
    CleanOfAcceptable(m);
    SingleDotsDoNotEscape(m);
  }

  /** A relative path that neither starts with a dot nor has two dots in a row. */
  lemma SingleDotsDoNotEscape(m: string)
    requires m != "" && m[0] != '.'
    requires forall i :: 0 <= i < |m| - 1 ==> !(m[i] == '.' && m[i + 1] == '.')
    ensures !Escapes(m)
  {
    ContainsPair(m, "/../", 1);
    PrefixChar("../", m, 0);
  }

  lemma TrimSpaceOfIdentifier(fn: string)
    requires ValidIdentifier(fn)
    ensures TrimSpace(fn) == fn
  {
    assert !IsSpace(fn[0]) && !IsSpace(fn[|fn| - 1]);
  }

  /** Resolving module:function text. */
  lemma ResolveParts(m: string, fn: string)
    requires ValidIdentifier(fn)
    ensures ParseUDFPath(m + ":" + fn) ==
      match ParseModulePath(m) { case None => None case Some(x) => Some(UDFPath(x, Some(fn))) }
  {
    IdentifierAvoids(fn, ':');
    PrintedParts(m, fn);
  }

  lemma WireName(comps: seq<string>, fn: string)
    requires DotFreeModule(comps) && ValidIdentifier(fn)
    ensures var m := Join(comps, '/');
      && ParseUDFPath(m + ":" + fn) == Some(UDFPath(m, Some(fn)))
      && TrimSuffix(CanonicalModule(m), ".js") == m
  {
    ModuleFacts(comps);
    ResolveParts(Join(comps, '/'), fn);
    TrimSuffixOf(Join(comps, '/'), ".js");
  }

  // ---- extensions ----

  predicate PlainExtension(e: string) { |e| >= 1 && e[0] == '.' && '.' !in e[1..] }

  /** A dotted suffix of m + e is e, when neither m nor the rest of e has a dot. */
  lemma SuffixIsExtension(m: string, e: string, t: string)
    requires '.' !in m && PlainExtension(e) && PlainExtension(t)
    ensures HasSuffix(m + e, t) <==> t == e
    ensures !HasSuffix(m, t)
  {
    SuffixDot(m + e, t);
    SuffixDot(m, t);
    var s := m + e;
    assert s[|m|..] == e;
    assert forall i :: 0 <= i < |m| ==> s[i] == m[i];
    assert forall i :: |m| < i < |s| ==> s[i] == e[1..][i - |m| - 1];
  }

  lemma SuffixDot(s: string, t: string)
    requires PlainExtension(t)
    ensures HasSuffix(s, t) ==> |t| <= |s| && s[|s| - |t|] == '.' && s[|s| - |t|..] == t
  {
  }

  lemma {:induction false} TrimLeavesDotFree(m: string, exts: seq<string>)
    requires '.' !in m && forall i :: 0 <= i < |exts| ==> PlainExtension(exts[i])
    ensures TrimExtensions(m, exts) == m
  {
    if exts != [] {
      SuffixIsExtension(m, exts[0], exts[0]);
      TrimLeavesDotFree(m, exts[1..]);
    }
  }

  lemma {:induction false} TrimRemovesExtension(m: string, e: string, exts: seq<string>)
    requires '.' !in m && PlainExtension(e)
    requires forall i :: 0 <= i < |exts| ==> PlainExtension(exts[i])
    ensures TrimExtensions(m + e, exts) == if e in exts then m else m + e
  {
    if exts != [] {
      SuffixIsExtension(m, e, exts[0]);
      if exts[0] == e {
        TrimSuffixOf(m, e);
        TrimLeavesDotFree(m, exts[1..]);
      } else {
        TrimRemovesExtension(m, e, exts[1..]);
      }
    }
  }

  lemma SourceExtensionsArePlain()
    ensures forall i :: 0 <= i < |SOURCE_EXTENSIONS| ==> PlainExtension(SOURCE_EXTENSIONS[i])
    ensures PlainExtension(".js") && ".js" !in SOURCE_EXTENSIONS
    ensures forall e :: e in SOURCE_EXTENSIONS ==> ':' !in e && '/' !in e
  {
    assert ".js"[1..] == "js";
    assert ".ts"[1..] == "ts" && ".tsx"[1..] == "tsx" && ".jsx"[1..] == "jsx" && ".mts"[1..] == "mts";
    assert ".mjs"[1..] == "mjs" && ".cts"[1..] == "cts" && ".cjs"[1..] == "cjs";
  }

  lemma {:induction false} TrimIsPrefix(file: string, exts: seq<string>)
    ensures TrimExtensions(file, exts) <= file
    decreases exts
  {
    if exts != [] {
      TrimIsPrefix(TrimSuffix(file, exts[0]), exts[1..]);
      assert TrimSuffix(file, exts[0]) <= file;
    }
  }

  /** The extension loop of ParseFunctionPath: it only shortens the file at its end, takes one
      source extension off a dot-free name, and leaves a dot-free name alone. */
  method TrimSourceExtensions(file: string) returns (r: string)
    ensures r == TrimExtensions(file, SOURCE_EXTENSIONS)
    ensures r <= file
    ensures '.' !in file ==> r == file
    ensures forall m, e :: '.' !in m && e in SOURCE_EXTENSIONS && file == m + e ==> r == m
  {
    r := file;
    for i := 0 to |SOURCE_EXTENSIONS|
      invariant TrimExtensions(r, SOURCE_EXTENSIONS[i..]) == TrimExtensions(file, SOURCE_EXTENSIONS)
    {
      assert SOURCE_EXTENSIONS[i..][1..] == SOURCE_EXTENSIONS[i + 1..];
      r := TrimSuffix(r, SOURCE_EXTENSIONS[i]);
    }
    TrimFacts(file);
  }

  lemma TrimFacts(file: string)
    ensures var r := TrimExtensions(file, SOURCE_EXTENSIONS);
      && r <= file && ('.' !in file ==> r == file)
      && forall m, e :: '.' !in m && e in SOURCE_EXTENSIONS && file == m + e ==> r == m
  {
    hide TrimExtensions;
    SourceExtensionsArePlain();
    TrimIsPrefix(file, SOURCE_EXTENSIONS);
    if '.' !in file {
      TrimLeavesDotFree(file, SOURCE_EXTENSIONS);
    }
    forall m, e | '.' !in m && e in SOURCE_EXTENSIONS && file == m + e
      ensures TrimExtensions(file, SOURCE_EXTENSIONS) == m
    {
      TrimRemovesExtension(m, e, SOURCE_EXTENSIONS);
    }
  }

  /** With an extension, the text reads as a generated name exactly for the two root modules. */
  lemma LooksGenerated(comps: seq<string>, e: string, rest: string, root: string)
    requires DotFreeModule(comps) && PlainExtension(e) && '.' !in root && '/' !in root
    ensures (root + ".") <= (Join(comps, '/') + e + rest) <==> comps == [root]
  {
    hide ParseModulePath, Ext, Split, DotFreeModule;
    var m := Join(comps, '/');
    var s := m + e + rest;
    ModuleFacts(comps);
    assert s[|m|] == '.';
    FirstDot(m, root, s);
    SplitAtom(root, '/');
    if comps == [root] {
      assert s == root + "." + (e[1..] + rest);
    }
  }

  lemma ReadsAsGenerated(comps: seq<string>, e: string, rest: string)
    requires DotFreeModule(comps) && PlainExtension(e)
    ensures var s := Join(comps, '/') + e + rest;
      ("api." <= s || "internal." <= s) <==> comps == ["api"] || comps == ["internal"]
  {
    LooksGenerated(comps, e, rest, "api");
    LooksGenerated(comps, e, rest, "internal");
    assert "api" + "." == "api." && "internal" + "." == "internal.";
  }

  /** Two dot-free texts that both precede the first dot of s are equal. */
  lemma FirstDot(m: string, root: string, s: string)
    requires '.' !in m && '.' !in root && m + "." <= s
    ensures root + "." <= s <==> root == m
  {
    PrefixChar(root + ".", s, |root|);
    PrefixChar(m + ".", s, |m|);
    if root + "." <= s {
      assert |root| == |m|;
      forall i | 0 <= i < |m| ensures root[i] == m[i] {
        PrefixChar(root + ".", s, i);
        PrefixChar(m + ".", s, i);
      }
    }
  }

  lemma TwoParts(root: string, e: string, fn: string)
    requires (root == "api" || root == "internal") && PlainExtension(e) && '.' !in fn
    ensures |Split(root + e + ":" + fn, '.')| == 2 && root + "." <= root + e + ":" + fn
  {
    var rest := e[1..] + ":" + fn;
    assert root + e + ":" + fn == root + "." + rest;
    SplitPrefix(root, rest, '.');
    SplitAtom(rest, '.');
  }

  lemma TooFewParts(root: string, e: string, fn: string)
    requires (root == "api" || root == "internal") && PlainExtension(e) && '.' !in fn
    ensures ParseFunctionPath(root + e + ":" + fn) == None
  {
    hide Split, ParseUDFPath;
    TwoParts(root, e, fn);
  }

  // ---- each spelling ----

  lemma ResolveGenerated(s: string, parts: seq<string>, normalized: string)
    requires ("api." <= s || "internal." <= s) && Split(s, '.') == parts && |parts| >= 3
    requires normalized == Join(parts[1..|parts| - 1], '/') + ":" + parts[|parts| - 1]
    ensures ParseFunctionPath(s) == if ParseUDFPath(normalized).None? then None else Some(normalized)
  {
  }

  lemma ResolvePlain(s: string, file: string, fn: string, trimmed: string)
    requires !("api." <= s) && !("internal." <= s) && s == file + ":" + fn && ':' !in file
    requires ValidIdentifier(fn) && trimmed == TrimExtensions(file, SOURCE_EXTENSIONS)
    ensures ParseFunctionPath(s) ==
            if ParseUDFPath(trimmed + ":" + fn).None? then None else Some(trimmed + ":" + fn)
  {
    CutAt(file, fn, ':');
    TrimSpaceOfIdentifier(fn);
  }

  lemma ResolveCanonical(s: string, normalized: string, m: string, fn: string)
    requires ParseFunctionPath(s) == Some(normalized)
    requires ParseUDFPath(normalized) == Some(UDFPath(m, Some(fn)))
    ensures CanonicalQueryPath(s) == Some(TrimSuffix(CanonicalModule(m), ".js") + ":" + fn)
  {
  }

  lemma ColonSpelling(comps: seq<string>, fn: string)
    requires DotFreeModule(comps) && ValidIdentifier(fn)
    ensures CanonicalQueryPath(Spell(comps, fn, Colon)) == Some(Join(comps, '/') + ":" + fn)
  {
    var m := Join(comps, '/');
    var s := m + ":" + fn;
    ModuleFacts(comps);
    IdentifierAvoids(fn, '.');
    assert '.' !in s;
    PrefixChar("api.", s, 3);
    PrefixChar("internal.", s, 8);
    SourceExtensionsArePlain();
    TrimLeavesDotFree(m, SOURCE_EXTENSIONS);
    ResolvePlain(s, m, fn, m);
    WireName(comps, fn);
    ResolveCanonical(s, s, m, fn);
  }

  lemma GeneratedSpelling(comps: seq<string>, fn: string, root: string)
    requires DotFreeModule(comps) && ValidIdentifier(fn) && (root == "api" || root == "internal")
    ensures CanonicalQueryPath(Spell(comps, fn, Generated(root))) == Some(Join(comps, '/') + ":" + fn)
  {
    var m := Join(comps, '/');
    var s := Join([root] + comps + [fn], '.');
    GeneratedParts(comps, fn, root);
    WireName(comps, fn);
    ResolveGenerated(s, [root] + comps + [fn], m + ":" + fn);
    ResolveCanonical(s, m + ":" + fn, m, fn);
  }

  lemma GeneratedParts(comps: seq<string>, fn: string, root: string)
    requires DotFreeModule(comps) && ValidIdentifier(fn) && (root == "api" || root == "internal")
    ensures var parts := [root] + comps + [fn]; var s := Join(parts, '.');
      Split(s, '.') == parts && ("api." <= s || "internal." <= s) && parts[1..|parts| - 1] == comps
  {
    var parts := [root] + comps + [fn];
    IdentifierAvoids(fn, '.');
    SplitJoin(parts, '.');
    assert parts[1..] == comps + [fn];
    assert root + "." <= Join(parts, '.');
  }

  lemma SourceSpelling(comps: seq<string>, fn: string, e: string)
    requires DotFreeModule(comps) && ValidIdentifier(fn) && e in SOURCE_EXTENSIONS
    ensures CanonicalQueryPath(Spell(comps, fn, Source(e))) ==
            if Refused(comps, Source(e)) then None else Some(Join(comps, '/') + ":" + fn)
  {
    var m := Join(comps, '/');
    SourceExtensionsArePlain();
    ExtensionPrefix(comps, fn, e, m) by {
      ModuleFacts(comps);
      TrimRemovesExtension(m, e, SOURCE_EXTENSIONS);
    }
    WireName(comps, fn);
    if !Refused(comps, Source(e)) {
      ResolveCanonical(m + e + ":" + fn, m + ":" + fn, m, fn);
    }
  }

  /** The common part of the spellings with an extension. */
  lemma SingleModule(comps: seq<string>)
    requires |comps| == 1
    ensures Join(comps, '/') == comps[0]
  {
  }

  lemma ExtensionPrefix(comps: seq<string>, fn: string, e: string, trimmed: string)
    requires DotFreeModule(comps) && ValidIdentifier(fn) && PlainExtension(e) && ':' !in e
    requires trimmed == TrimExtensions(Join(comps, '/') + e, SOURCE_EXTENSIONS)
    ensures ParseFunctionPath(Join(comps, '/') + e + ":" + fn) ==
      if comps == ["api"] || comps == ["internal"] || ParseUDFPath(trimmed + ":" + fn).None? then None
      else Some(trimmed + ":" + fn)
  {
    hide ParseFunctionPath, ParseUDFPath, TrimExtensions, DotFreeModule, PlainExtension, ValidIdentifier;
    if comps == ["api"] || comps == ["internal"] {
      IdentifierAvoids(fn, '.');
      SingleModule(comps);
      TooFewParts(comps[0], e, fn);
    } else {
      var m := Join(comps, '/');
      ModuleFacts(comps);
      NotGenerated(comps, e, fn);
      ResolvePlain(m + e + ":" + fn, m + e, fn, trimmed);
    }
  }

  lemma NotGenerated(comps: seq<string>, e: string, fn: string)
    requires DotFreeModule(comps) && PlainExtension(e) && comps != ["api"] && comps != ["internal"]
    ensures var s := Join(comps, '/') + e + ":" + fn; !("api." <= s) && !("internal." <= s)
  {
    var m := Join(comps, '/');
    assert m + e + (":" + fn) == m + e + ":" + fn;
    ReadsAsGenerated(comps, e, ":" + fn);
  }

  lemma AcceptCleaned(s: string, parts: seq<string>)
    requires s != "" && s[0] != '/' && Clean(ReplaceBackslashes(s)) == s && !Escapes(s)
    requires Split(s, '/') == parts && Ext(s) == ".js"
    ensures ParseModulePath(s) ==
            if forall i :: 0 <= i < |parts| ==> AcceptablePart(parts[i]) then Some(s) else None
  {
  }

  lemma CompiledComponent(c: string)
    requires ValidComponent(c)
    ensures AcceptablePart(c + ".js") <==> |c| + 3 <= MAX_IDENTIFIER_LENGTH
    ensures '/' !in c ==> '/' !in c + ".js"
  {
    var k :| 0 <= k < |c| && IsAlnum(c[k]);
    assert (c + ".js")[k] == c[k];
  }

  lemma CompiledModule(comps: seq<string>)
    requires DotFreeModule(comps)
    ensures var m := Join(comps, '/');
      && ParseModulePath(m + ".js") ==
           (if |comps[|comps| - 1]| + 3 > MAX_IDENTIFIER_LENGTH then None else Some(m + ".js"))
      && CanonicalModule(m + ".js") == m + ".js"
  {
    var m := Join(comps, '/');
    var n := |comps| - 1;
    var parts := comps[..n] + [comps[n] + ".js"];
    assert Ext(m + ".js") == ".js" by {
      assert m + "." + "js" == m + ".js";
      ExtOfSuffix(m, "js", 2);
    }
    CompiledComponent(comps[n]);
    CompiledClean(comps, parts);
    AcceptCleaned(m + ".js", parts);
    assert parts[n] == comps[n] + ".js";
  }

  lemma CompiledClean(comps: seq<string>, parts: seq<string>)
    requires DotFreeModule(comps)
    requires var n := |comps| - 1; parts == comps[..n] + [comps[n] + ".js"]
    ensures var s := Join(comps, '/') + ".js";
      && s != "" && s[0] != '/' && Clean(ReplaceBackslashes(s)) == s && !Escapes(s)
      && Split(s, '/') == parts
  {
    NoBackslashes(comps);
    CompiledDoesNotEscape(comps);
    JoinAppend(comps, ".js", '/');
    StackText(comps, parts, Join(comps, '/') + ".js");
  }

  lemma StackText(comps: seq<string>, parts: seq<string>, s: string)
    requires DotFreeModule(comps) && s == Join(parts, '/')
    requires var n := |comps| - 1; parts == comps[..n] + [comps[n] + ".js"]
    ensures s != "" && s[0] != '/' && Clean(s) == s && Split(s, '/') == parts
  {
    CompiledStack(comps, parts);
    SplitJoin(parts, '/');
    CleanOfStack(parts, false);
    JoinedStackStart(parts, false);
  }

  lemma NoBackslashes(comps: seq<string>)
    requires DotFreeModule(comps)
    ensures ReplaceBackslashes(Join(comps, '/') + ".js") == Join(comps, '/') + ".js"
  {
    JoinAvoids(comps, '/', '\\');
  }

  lemma CompiledStack(comps: seq<string>, parts: seq<string>)
    requires DotFreeModule(comps)
    requires var n := |comps| - 1; parts == comps[..n] + [comps[n] + ".js"]
    ensures CleanStack(parts, false) && forall i :: 0 <= i < |parts| ==> '/' !in parts[i]
  {
    CompiledComponent(comps[|comps| - 1]);
    assert |parts[|parts| - 1]| > 2;
  }

  lemma CompiledDoesNotEscape(comps: seq<string>)
    requires DotFreeModule(comps)
    ensures !Escapes(Join(comps, '/') + ".js")
  {
    var m := Join(comps, '/');
    var s := m + ".js";
    JoinAvoids(comps, '/', '.');
    JoinedStackStart(comps, false);
    assert forall i :: 0 <= i < |m| ==> s[i] == m[i];
    assert s[|m| + 1] == 'j' && s[|m| + 2] == 's';
    SingleDotsDoNotEscape(s);
  }

  lemma CompiledSpelling(comps: seq<string>, fn: string)
    requires DotFreeModule(comps) && ValidIdentifier(fn)
    ensures CanonicalQueryPath(Spell(comps, fn, Compiled)) ==
            if Refused(comps, Compiled) then None else Some(Join(comps, '/') + ":" + fn)
  {
    var m := Join(comps, '/');
    var file := m + ".js";
    SourceExtensionsArePlain();
    ExtensionPrefix(comps, fn, ".js", file) by {
      ModuleFacts(comps);
      TrimRemovesExtension(m, ".js", SOURCE_EXTENSIONS);
    }
    CompiledModule(comps);
    ResolveParts(file, fn);
    TrimSuffixOf(m, ".js");
    if !Refused(comps, Compiled) {
      ResolveCanonical(file + ":" + fn, file + ":" + fn, file, fn);
    }
  }

  /** Every spelling of a function in a dot-free module names the same wire path, except
      the two refused families, which are errors. */
  lemma SpellingsCollapse(comps: seq<string>, fn: string, sp: Spelling)
    requires DotFreeModule(comps) && ValidIdentifier(fn) && ValidSpelling(sp)
    ensures CanonicalQueryPath(Spell(comps, fn, sp)) ==
            if Refused(comps, sp) then None else Some(Join(comps, '/') + ":" + fn)
  {
    match sp
    case Colon => ColonSpelling(comps, fn);
    case Generated(root) => GeneratedSpelling(comps, fn, root);
    case Source(ext) => SourceSpelling(comps, fn, ext);
    case Compiled => CompiledSpelling(comps, fn);
  }

  /** Distinct functions keep distinct wire paths. */
  lemma WirePathsDistinct(comps: seq<string>, fn: string, comps': seq<string>, fn': string)
    requires DotFreeModule(comps) && ValidIdentifier(fn)
    requires DotFreeModule(comps') && ValidIdentifier(fn')
    requires Join(comps, '/') + ":" + fn == Join(comps', '/') + ":" + fn'
    ensures comps == comps' && fn == fn'
  {
    ModuleFacts(comps);
    ModuleFacts(comps');
    CutAt(Join(comps, '/'), fn, ':');
    CutAt(Join(comps', '/'), fn', ':');
  }

  /** The api module cannot be spelled with an extension, though its plain spelling works. */
  lemma RefusedExample()
    ensures CanonicalQueryPath("api" + ".js" + ":" + "list") == None
    ensures CanonicalQueryPath("api" + ":" + "list") == Some("api" + ":" + "list")
  {
    assert IsAlnum("api"[0]) && "list"[0] != '_';
    assert DotFreeModule(["api"]) && ValidIdentifier("list");
    SpellingsCollapse(["api"], "list", Compiled);
    SpellingsCollapse(["api"], "list", Colon);
  }

  function Letters(n: nat): string { seq(n, _ => 'a') }

  /** A module of 62 letters is accepted, but not with its compiled extension. */
  lemma RefusedLongExample()
    ensures CanonicalQueryPath(Letters(62) + ".js" + ":" + "list") == None
    ensures CanonicalQueryPath(Letters(62) + ":" + "list") == Some(Letters(62) + ":" + "list")
  {
    var m := Letters(62);
    assert IsAlnum(m[0]) && IsAlnum("list"[0]);
    assert DotFreeModule([m]) && ValidIdentifier("list") && Join([m], '/') == m;
    SpellingsCollapse([m], "list", Compiled);
    SpellingsCollapse([m], "list", Colon);
  }

  /** A module alone, or with nothing but blanks after the colon, names its default function. */
  lemma DefaultSpelling(comps: seq<string>, blanks: string)
    requires DotFreeModule(comps) && TrimSpace(blanks) == ""
    ensures CanonicalQueryPath(Join(comps, '/')) == Some(Join(comps, '/') + ":" + "default")
    ensures '.' !in blanks ==>
      CanonicalQueryPath(Join(comps, '/') + ":" + blanks) == Some(Join(comps, '/') + ":" + "default")
  {
    hide ParseUDFPath, CanonicalModule, TrimSuffix, DotFreeModule, ParseModulePath, Ext;
    var m := Join(comps, '/');
    ModuleFacts(comps);
    SourceExtensionsArePlain();
    TrimLeavesDotFree(m, SOURCE_EXTENSIONS);
    DefaultIsIdentifier();
    WireName(comps, "default");
    NotGeneratedText(m);
    ResolveCanonical(m, m + ":" + "default", m, "default");
    if '.' !in blanks {
      CutAt(m, blanks, ':');
      NotGeneratedText(m + ":" + blanks);
      ResolveCanonical(m + ":" + blanks, m + ":" + "default", m, "default");
    }
  }

  lemma DefaultIsIdentifier()
    ensures ValidIdentifier("default") && TrimSpace("") == ""
  {
    assert IsAlnum("default"[0]);
  }

  lemma NotGeneratedText(s: string)
    requires '.' !in s
    ensures !("api." <= s) && !("internal." <= s)
  {
    PrefixChar("api.", s, 3);
    PrefixChar("internal.", s, 8);
  }

  lemma ExampleIsDotFree()
    ensures DotFreeModule(["a"]) && ValidIdentifier("list") && Join(["a"], '/') == "a"
  {
    assert IsAlnum("a"[0]) && IsAlnum("list"[0]);
  }

  /** Canonicalization is not one-to-one on names the code accepts: two different paths, both
      parsed from text, have the same canonical form. */
  lemma CanonicalizeExample()
    ensures var u, v := ParseUDFPath("a:list"), ParseUDFPath("a.js:list");
      u.Some? && v.Some? && u != v && Canonicalize(u.value) == Canonicalize(v.value)
  {
    hide ParseModulePath, ParseUDFPath, ValidIdentifier;
    ExampleIsDotFree();
    ModuleFacts(["a"]);
    CompiledModule(["a"]);
    ResolveParts("a", "list");
    ResolveParts("a" + ".js", "list");
    assert "a" + ":" + "list" == "a:list" && "a" + ".js" + ":" + "list" == "a.js:list";
  }
}
