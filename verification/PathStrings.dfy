/** Folder names and paths as strings: sanitizing, joining, JavaScript's
    replace and split. */
module PathStrings {
  import opened Wrappers

  /** JavaScript white space: what \s matches and what trim removes. */
  predicate IsSpace(c: char) {
    c in ['\t', '\n', '\U{000b}', '\U{000c}', '\r', ' ', '\U{00a0}', '\U{1680}', '\U{2028}', '\U{2029}',
          '\U{202f}', '\U{205f}', '\U{3000}', '\U{feff}']
    || '\U{2000}' <= c <= '\U{200a}'
  }

  predicate IsAllowed(c: char) {
    'a' <= c <= 'z' || 'A' <= c <= 'Z' || '0' <= c <= '9' || c == '-' || c == '_' || IsSpace(c)
  }

  function Keep(s: string): string {
    if s == "" then "" else (if IsAllowed(s[0]) then [s[0]] else "") + Keep(s[1..])
  }

  function TrimStart(s: string): string {
    if s != "" && IsSpace(s[0]) then TrimStart(s[1..]) else s
  }

  function TrimEnd(s: string): string {
    if s != "" && IsSpace(s[|s| - 1]) then TrimEnd(s[..|s| - 1]) else s
  }

  function SanitizeFolderName(name: string): string {
    TrimEnd(TrimStart(Keep(name)))
  }

  function BuildFolderPath(parentPath: Option<string>, folderName: string): string {
    var sanitized := SanitizeFolderName(folderName);
    if parentPath.Some? && parentPath.value != "" then parentPath.value + "/" + sanitized else sanitized
  }

  /** The path without its last segment, if it has more than one. */
  function ParentPath(path: string): Option<string> {
    if path == "" then None
    else if path[|path| - 1] == '/' then Some(path[..|path| - 1])
    else ParentPath(path[..|path| - 1])
  }

  // ----- sanitizing --------------------------------------------------------------

  /** What the path index needs of a name. */
  predicate SafeName(name: string) {
    name != "" && '/' !in name && '$' !in name && SanitizeFolderName(name) == name
  }

  lemma {:induction false} KeepAllows(s: string)
    ensures forall c :: c in Keep(s) ==> IsAllowed(c)
  {
    if s != "" { KeepAllows(s[1..]); }
  }

  lemma {:induction false} KeepIsIdentity(s: string)
    requires forall c :: c in s ==> IsAllowed(c)
    ensures Keep(s) == s
  {
    if s != "" {
      KeepIsIdentity(s[1..]);
      assert s == [s[0]] + s[1..];
    }
  }

  lemma {:induction false} TrimStartSuffix(s: string)
    ensures var t := TrimStart(s);
      |t| <= |s| && t == s[|s| - |t|..] && (t != "" ==> !IsSpace(t[0]))
  {
    if s != "" && IsSpace(s[0]) { TrimStartSuffix(s[1..]); }
  }

  lemma {:induction false} TrimEndPrefix(s: string)
    ensures TrimEnd(s) <= s
    ensures TrimEnd(s) != "" ==> !IsSpace(TrimEnd(s)[|TrimEnd(s)| - 1])
  {
    if s != "" && IsSpace(s[|s| - 1]) { TrimEndPrefix(s[..|s| - 1]); }
  }

  lemma SanitizedChars(name: string)
    ensures forall c :: c in SanitizeFolderName(name) ==> IsAllowed(c)
  {
    var kept := Keep(name);
    KeepAllows(name);
    TrimStartSuffix(kept);
    TrimEndPrefix(TrimStart(kept));
  }

  lemma TrimmedEnds(s: string)
    ensures var t := TrimEnd(TrimStart(s)); t != "" ==> !IsSpace(t[0]) && !IsSpace(t[|t| - 1])
  {
    var started := TrimStart(s);
    TrimStartSuffix(s);
    TrimEndPrefix(started);
    if TrimEnd(started) != "" { assert TrimEnd(started)[0] == started[0]; }
  }

  lemma SeparatorsAreNotAllowed()
    ensures !IsAllowed('/') && !IsAllowed('$')
  {
  }

  lemma TrimIsIdentity(s: string)
    requires s != "" ==> !IsSpace(s[0]) && !IsSpace(s[|s| - 1])
    ensures TrimEnd(TrimStart(s)) == s
  {
  }

  /** buildFolderPath sanitizes a second time; that changes nothing, and a
      sanitized name holds neither '/' nor '$'. */
  lemma SanitizeIsIdempotent(name: string)
    ensures var s := SanitizeFolderName(name);
      SanitizeFolderName(s) == s && (s != "" ==> SafeName(s))
  {
    var s := SanitizeFolderName(name);
    SanitizedChars(name);
    TrimmedEnds(Keep(name));
    KeepIsIdentity(s);
    TrimIsIdentity(s);
    SeparatorsAreNotAllowed();
  }

  // ----- what sanitizing keeps --------------------------------------------------

  /** The characters below code 128 that a folder name may keep are exactly these:
      letters, digits, the hyphen, the underscore and white space. */
  lemma KeptAscii(c: char)
    requires c < '\U{0080}'
    ensures IsAllowed(c) <==> c in "ABCDEFGHIJKLMNOPQRSTUVWXYZ" || c in "abcdefghijklmnopqrstuvwxyz"
                              || c in "0123456789-_ \t\n\U{000b}\U{000c}\r"
  {
    UpperCase(c);
    LowerCase(c);
  }

  lemma UpperCase(c: char)
    ensures 'A' <= c <= 'Z' <==> c in "ABCDEFGHIJKLMNOPQRSTUVWXYZ"
  {
  }

  lemma LowerCase(c: char)
    ensures 'a' <= c <= 'z' <==> c in "abcdefghijklmnopqrstuvwxyz"
  {
  }

  lemma KeepOne(c: char)
    ensures Keep([c]) == if IsAllowed(c) then [c] else ""
  {
    assert [c][1..] == "";
  }

  /** Keep goes character by character. */
  lemma {:induction false} KeepConcat(a: string, b: string)
    ensures Keep(a + b) == Keep(a) + Keep(b)
  {
    if a == "" {
      assert a + b == b;
    } else {
      assert (a + b)[1..] == a[1..] + b && (a + b)[0] == a[0];
      KeepConcat(a[1..], b);
      Associate(if IsAllowed(a[0]) then [a[0]] else "", Keep(a[1..]), Keep(b));
    }
  }

  lemma Associate(a: string, b: string, c: string)
    ensures a + (b + c) == a + b + c
  {
  }

  lemma {:induction false} TrimStartTakesSpace(s: string, i: nat)
    requires |TrimStart(s)| <= |s| && i < |s| - |TrimStart(s)|
    ensures IsSpace(s[i])
  {
    if i > 0 {
      TrimStartSuffix(s[1..]);
      TrimStartTakesSpace(s[1..], i - 1);
    }
  }

  lemma {:induction false} TrimEndTakesSpace(s: string, i: nat)
    requires |TrimEnd(s)| <= i < |s|
    ensures IsSpace(s[i])
    decreases |s|
  {
    if i < |s| - 1 { TrimEndTakesSpace(s[..|s| - 1], i); }
  }

  /** Only white space stands before from and from to on. */
  ghost predicate SpaceAround(s: string, from: nat, to: nat) {
    forall i :: 0 <= i < |s| && (i < from || to <= i) ==> IsSpace(s[i])
  }

  lemma TrimTakesOnlySpace(s: string) returns (from: nat, to: nat)
    ensures from <= to <= |s| && TrimEnd(TrimStart(s)) == s[from..to] && SpaceAround(s, from, to)
  {
    var started := TrimStart(s);
    var trimmed := TrimEnd(started);
    TrimStartSuffix(s);
    TrimEndPrefix(started);
    forall i | 0 <= i < |s| - |started| ensures IsSpace(s[i]) { TrimStartTakesSpace(s, i); }
    forall i | |trimmed| <= i < |started| ensures IsSpace(started[i]) { TrimEndTakesSpace(started, i); }
    from, to := CutAround(s, started, trimmed);
  }

  lemma CutAround(s: string, started: string, trimmed: string) returns (from: nat, to: nat)
    requires |started| <= |s| && started == s[|s| - |started|..] && trimmed <= started
    requires forall i :: 0 <= i < |s| - |started| ==> IsSpace(s[i])
    requires forall i :: |trimmed| <= i < |started| ==> IsSpace(started[i])
    ensures from <= to <= |s| && trimmed == s[from..to] && SpaceAround(s, from, to)
  {
    from := |s| - |started|;
    to := from + |trimmed|;
    forall i | 0 <= i < |s| && (i < from || to <= i) ensures IsSpace(s[i]) {
      if to <= i { assert s[i] == started[i - from]; }
    }
  }

  /** Sanitizing drops the characters that are not allowed, wherever they stand,
      then white space at both ends, and nothing else. */
  lemma SanitizeTakesOnlySpace(name: string) returns (from: nat, to: nat)
    ensures from <= to <= |Keep(name)| && SanitizeFolderName(name) == Keep(name)[from..to]
    ensures SpaceAround(Keep(name), from, to)
  {
    from, to := TrimTakesOnlySpace(Keep(name));
  }

  // ----- String.prototype.replace with a string pattern ------------------------

  /** GetSubstitution: '$$', '$&', '$`' and "$'" are special, other text is literal. */
  function Substitution(template: string, matched: string, before: string, after: string): string {
    if template == "" then ""
    else if template[0] == '$' && |template| > 1 && template[1] == '$'
    then "$" + Substitution(template[2..], matched, before, after)
    else if template[0] == '$' && |template| > 1 && template[1] == '&'
    then matched + Substitution(template[2..], matched, before, after)
    else if template[0] == '$' && |template| > 1 && template[1] == '`'
    then before + Substitution(template[2..], matched, before, after)
    else if template[0] == '$' && |template| > 1 && template[1] == '\''
    then after + Substitution(template[2..], matched, before, after)
    else [template[0]] + Substitution(template[1..], matched, before, after)
  }

  /** The first index at or after i where pattern occurs. */
  function IndexFrom(s: string, pattern: string, i: nat): (r: Option<nat>)
    ensures r.Some? ==> i <= r.value && r.value + |pattern| <= |s|
    decreases |s| - i
  {
    if i + |pattern| > |s| then None
    else if pattern <= s[i..] then Some(i)
    else IndexFrom(s, pattern, i + 1)
  }

  function ReplaceFirst(s: string, pattern: string, template: string): string {
    match IndexFrom(s, pattern, 0)
    case None => s
    case Some(i) =>
      var before, after := s[..i], s[i + |pattern|..];
      before + Substitution(template, pattern, before, after) + after
  }

  lemma {:induction false} PlainSubstitution(template: string, matched: string, before: string, after: string)
    requires '$' !in template
    ensures Substitution(template, matched, before, after) == template
  {
    if template != "" {
      assert template[0] != '$' && template == [template[0]] + template[1..];
      PlainSubstitution(template[1..], matched, before, after);
    }
  }

  /** For a string that starts with the pattern and a template without '$', the
      first-occurrence replace swaps the leading prefix and nothing else. */
  lemma ReplaceSwapsPrefix(s: string, pattern: string, template: string)
    requires pattern <= s && '$' !in template
    ensures ReplaceFirst(s, pattern, template) == template + s[|pattern|..]
  {
    PlainSubstitution(template, pattern, s[..0], s[|pattern|..]);
  }

  // ----- split and join ------------------------------------------------------------

  /** String.prototype.split('/'). */
  function Split(s: string): (parts: seq<string>)
    ensures |parts| > 0
  {
    if s == "" then [""]
    else
      var rest := Split(s[1..]);
      if s[0] == '/' then [""] + rest else [[s[0]] + rest[0]] + rest[1..]
  }

  /** The '/'-join of the names. */
  function Join(names: seq<string>): string
    requires |names| > 0
  {
    if |names| == 1 then names[0] else Join(names[..|names| - 1]) + "/" + names[|names| - 1]
  }

  /** Splitting off the first segment. */
  lemma {:induction false} SplitFirst(first: string, rest: string)
    requires '/' !in first
    ensures Split(first + "/" + rest) == [first] + Split(rest)
  {
    var s := first + "/" + rest;
    if first == "" {
      assert s[0] == '/' && s[1..] == rest;
    } else {
      assert s[1..] == first[1..] + "/" + rest;
      SplitFirst(first[1..], rest);
      assert [first[0]] + first[1..] == first;
    }
  }

  lemma {:induction false} SplitSingle(s: string)
    requires '/' !in s
    ensures Split(s) == [s]
  {
    if s != "" { SplitSingle(s[1..]); assert s == [s[0]] + s[1..]; }
  }

  /** A path that ends in a segment gives its parent back. */
  lemma {:induction false} ParentPathOf(prefix: string, name: string)
    requires '/' !in name
    ensures ParentPath(prefix + "/" + name) == Some(prefix)
  {
    var path := prefix + "/" + name;
    if name == "" {
      assert path[..|path| - 1] == prefix;
    } else {
      assert path[..|path| - 1] == prefix + "/" + name[..|name| - 1];
      ParentPathOf(prefix, name[..|name| - 1]);
    }
  }

  lemma {:induction false} NoParentPath(name: string)
    requires '/' !in name
    ensures ParentPath(name) == None
  {
    if name != "" { NoParentPath(name[..|name| - 1]); }
  }
}
