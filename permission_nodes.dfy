/** Permission nodes, src/parsers/permissions.rs: parsing `a.b.c` and `a.b.*` strings, and
    matching a permission against a requested node.

    The source measures strings with `len()` (bytes) but indexes them with `chars().nth` (characters).
    `ParsePermissionAsWritten` and `MatchesAsWritten` keep that mix; `ParsePermission` and
    `Matches` index by character throughout, agree with them on ASCII text, and are what the rest of
    the model uses. */
module Permissions {

  import opened Wrappers
  import opened Errors
  import opened Text

  datatype Permission = Permission(node: string, wildcard: bool)

  /** The characters of `s` in reverse order, as `s.chars().rev()`. */
  function Reverse(s: string): string
  {
    if s == [] then [] else Reverse(s[1..]) + [s[0]]
  }

  // ----- as written -----------------------------------------------------------------------------

  /** `TryFrom<&String> for Permission` (lines 37-56) with `len` the byte length and
      `nth(len - 2)` a character index. The slice `value[..len-2]` is a byte slice; it is reached
      only when `nth(len - 2)` is `.`, which forces the text to be ASCII (see
      `AsWrittenWildcardsAreAscii`), where byte and character slices agree. */
  function ParsePermissionAsWritten(value: string): Result<Permission, PermissionParseError>
  {
    ByteLenBounds(value);
    var len := ByteLen(value);
    if len == 0 then Err(InvalidPermissionString(value))
    else
      var last := value[|value| - 1];
      if last == '.' then Err(InvalidPermissionString(value))
      else if last == '*' then
        if len >= 2 && NthChar(value, len - 2) == Some('.') then Ok(Permission(value[..|value| - 2], true))
        else Err(InvalidPermissionString(value))
      else Ok(Permission(value, false))
  }

  /** `Permissible::matches` (lines 17-29): a wildcard checks the character at index
      `node.len()`, a byte count. */
  function MatchesAsWritten(p: Permission, requested: string): bool
  {
    if !p.wildcard then Reverse(p.node) == Reverse(requested)
    else NthChar(requested, ByteLen(p.node)) == Some('.') && p.node <= requested
  }

  // ----- by character -----------------------------------------------------------------------------

  /** The permission string a node is parsed from. */
  predicate ValidPermissionString(s: string)
  {
    |s| > 0 && s[|s| - 1] != '.' && (s[|s| - 1] == '*' ==> |s| >= 2 && s[|s| - 2] == '.')
  }

  function ParsePermission(value: string): Result<Permission, PermissionParseError>
  {
    if |value| == 0 then Err(InvalidPermissionString(value))
    else
      var last := value[|value| - 1];
      if last == '.' then Err(InvalidPermissionString(value))
      else if last == '*' then
        if |value| >= 2 && value[|value| - 2] == '.' then Ok(Permission(value[..|value| - 2], true))
        else Err(InvalidPermissionString(value))
      else Ok(Permission(value, false))
  }

  function Matches(p: Permission, requested: string): bool
  {
    if !p.wildcard then Reverse(p.node) == Reverse(requested)
    else NthChar(requested, |p.node|) == Some('.') && p.node <= requested
  }

  /** The string a permission is written as. */
  function Serialise(p: Permission): string
  {
    if p.wildcard then p.node + ".*" else p.node
  }

  // ----- properties of parsing ------------------------------------------------------------------

  /** A string parses exactly when it is non-empty, does not end in `.`, and ends in `*` only as
      `.*`; a rejection carries the input unchanged. */
  lemma ParseAcceptsValidStrings(s: string)
    ensures ParsePermission(s).Ok? <==> ValidPermissionString(s)
    ensures ParsePermission(s).Err? ==> ParsePermission(s).error == InvalidPermissionString(s)
  {
  }

  /** The empty string, a trailing `.`, and a `*` not preceded by `.` are rejected. */
  lemma ParseRejections(s: string)
    ensures s == [] ==> ParsePermission(s) == Err(InvalidPermissionString(s))
    ensures |s| > 0 && s[|s| - 1] == '.' ==> ParsePermission(s) == Err(InvalidPermissionString(s))
    ensures |s| > 0 && s[|s| - 1] == '*' && (|s| < 2 || s[|s| - 2] != '.') ==>
      ParsePermission(s) == Err(InvalidPermissionString(s))
  {
  }

  /** `x.*` is the wildcard over `x`; any other accepted string is the exact node itself. */
  lemma ParseAcceptances(s: string)
    ensures |s| >= 2 && s[|s| - 2..] == ".*" ==> ParsePermission(s) == Ok(Permission(s[..|s| - 2], true))
    ensures |s| > 0 && s[|s| - 1] != '.' && s[|s| - 1] != '*' ==> ParsePermission(s) == Ok(Permission(s, false))
  {
    if |s| >= 2 && s[|s| - 2..] == ".*" {
      assert s[|s| - 2] == s[|s| - 2..][0] && s[|s| - 1] == s[|s| - 2..][1];
    }
  }

  /** Parsing inverts writing: a parsed permission is written back as the very same string. */
  lemma ParseSerialiseRoundTrip(s: string)
    requires ParsePermission(s).Ok?
    ensures Serialise(ParsePermission(s).value) == s
  {
    if s[|s| - 1] == '*' {
      assert s == s[..|s| - 2] + [s[|s| - 2], s[|s| - 1]];
    }
  }

  /** Writing inverts parsing, for every permission that can be written: a wildcard over any
      node, or a non-empty exact node not ending in `.` or `*`. */
  lemma SerialiseParseRoundTrip(p: Permission)
    requires !p.wildcard ==> |p.node| > 0 && p.node[|p.node| - 1] != '.' && p.node[|p.node| - 1] != '*'
    ensures ParsePermission(Serialise(p)) == Ok(p)
  {
    if p.wildcard {
      var s := Serialise(p);
      assert s[|s| - 1] == '*' && s[|s| - 2] == '.';
      assert s[..|s| - 2] == p.node;
    }
  }

  // ----- properties of matching -----------------------------------------------------------------

  lemma {:induction false} ReverseLength(s: string)
    ensures |Reverse(s)| == |s|
  {
    if s != [] {
      ReverseLength(s[1..]);
    }
  }

  /** Reversal loses nothing: equal reversals come from equal strings. */
  lemma {:induction false} ReverseInjective(a: string, b: string)
    ensures Reverse(a) == Reverse(b) <==> a == b
    decreases |a|
  {
    if Reverse(a) == Reverse(b) && a != [] {
      ReverseLength(a);
      ReverseLength(b);
      ReverseLength(a[1..]);
      ReverseLength(b[1..]);
      var ra, rb := Reverse(a), Reverse(b);
      assert ra[|ra| - 1] == a[0] && rb[|rb| - 1] == b[0];
      assert ra[..|ra| - 1] == Reverse(a[1..]) && rb[..|rb| - 1] == Reverse(b[1..]);
      ReverseInjective(a[1..], b[1..]);
      assert a == [a[0]] + a[1..] && b == [b[0]] + b[1..];
    }
  }

  /** An exact permission matches a node exactly when the two strings are equal. */
  lemma ExactMatchesEqualNode(p: Permission, requested: string)
    requires !p.wildcard
    ensures Matches(p, requested) <==> p.node == requested
  {
    ReverseInjective(p.node, requested);
  }

  /** A wildcard permission matches exactly the nodes that begin with its node and a `.`; so never
      its bare node, nor a node that continues its node without the dot. */
  lemma WildcardMatchesDottedExtensions(p: Permission, requested: string)
    requires p.wildcard
    ensures Matches(p, requested) <==> p.node + "." <= requested
    ensures !Matches(p, p.node)
    ensures forall rest: string | |rest| > 0 && rest[0] != '.' :: !Matches(p, p.node + rest)
  {
    if Matches(p, requested) {
      assert requested[..|p.node| + 1] == p.node + ".";
    }
    if p.node + "." <= requested {
      assert requested[|p.node|] == (p.node + ".")[|p.node|];
    }
    forall rest: string | |rest| > 0 && rest[0] != '.' ensures !Matches(p, p.node + rest) {
      assert (p.node + rest)[|p.node|] == rest[0];
    }
  }

  // ----- the two readings agree on ASCII text ---------------------------------------------------

  lemma ParseAgreesOnAscii(s: string)
    requires IsAscii(s)
    ensures ParsePermissionAsWritten(s) == ParsePermission(s)
  {
    ByteLenBounds(s);
  }

  lemma MatchesAgreesOnAscii(p: Permission, requested: string)
    requires IsAscii(p.node)
    ensures MatchesAsWritten(p, requested) == Matches(p, requested)
  {
    ByteLenBounds(p.node);
  }

  /** As written, a wildcard string parses only when it is ASCII: for any other text the byte
      length overshoots the `.` and lands on the `*` or past the end. */
  lemma AsWrittenWildcardsAreAscii(s: string)
    requires ParsePermissionAsWritten(s).Ok? && ParsePermissionAsWritten(s).value.wildcard
    ensures IsAscii(s)
  {
    ByteLenBounds(s);
  }

  /** `é.*` is rejected as written, though it is the wildcard over `é`. */
  lemma NonAsciiWildcardRejected()
    ensures ParsePermissionAsWritten("é.*") == Err(InvalidPermissionString("é.*"))
    ensures ParsePermission("é.*") == Ok(Permission("é", true))
  {
    assert ByteLen("é.*") == 4 by {
      assert "é.*"[..2] == "é.";
      assert "é."[..1] == "é";
      assert "é"[..0] == "";
    }
    ParseAcceptances("é.*");
    assert "é.*"[1..] == ".*" && "é.*"[..1] == "é";
  }

  /** The wildcard over `é` does not match `é.x` as written. */
  lemma NonAsciiWildcardMissesChild()
    ensures !MatchesAsWritten(Permission("é", true), "é.x")
    ensures Matches(Permission("é", true), "é.x")
  {
    assert ByteLen("é") == 2 by {
      assert "é"[..0] == "";
    }
  }

  // ----- the unit tests of src/parsers/permissions.rs -------------------------------------------

  lemma ExactMatchingTestCases()
    ensures MatchesAsWritten(Permission("my.long.perm.node", false), "my.long.perm.node")
    ensures !MatchesAsWritten(Permission("my.long", false), "my.long.perm.node")
    ensures Matches(Permission("my.long.perm.node", false), "my.long.perm.node")
    ensures !Matches(Permission("my.long", false), "my.long.perm.node")
  {
    ExactMatchesEqualNode(Permission("my.long.perm.node", false), "my.long.perm.node");
    ExactMatchesEqualNode(Permission("my.long", false), "my.long.perm.node");
  }

  lemma WildcardMatchingTestCases()
    ensures !MatchesAsWritten(Permission("root", true), "rootnode")
    ensures !MatchesAsWritten(Permission("my.p", true), "my.perm")
    ensures MatchesAsWritten(Permission("my", true), "my.perm")
    ensures !Matches(Permission("root", true), "rootnode")
    ensures !Matches(Permission("my.p", true), "my.perm")
    ensures Matches(Permission("my", true), "my.perm")
  {
    assert "rootnode"[4] == 'n';
    assert "my.perm"[4] == 'e';
    assert "my.perm"[2] == '.' && "my" <= "my.perm";
    MatchesAgreesOnAscii(Permission("root", true), "rootnode");
    MatchesAgreesOnAscii(Permission("my.p", true), "my.perm");
    MatchesAgreesOnAscii(Permission("my", true), "my.perm");
  }

  lemma ParsingTestCases()
    ensures ParsePermissionAsWritten("my.perm") == Ok(Permission("my.perm", false))
    ensures ParsePermissionAsWritten("my.*") == Ok(Permission("my", true))
    ensures ParsePermissionAsWritten("").Err? && ParsePermissionAsWritten(".").Err?
    ensures ParsePermissionAsWritten("*").Err?
    ensures ParsePermissionAsWritten("myperm*").Err? && ParsePermissionAsWritten("myperm*.").Err?
    ensures ParsePermission("my.perm") == Ok(Permission("my.perm", false))
    ensures ParsePermission("my.*") == Ok(Permission("my", true))
    ensures ParsePermission("").Err? && ParsePermission(".").Err? && ParsePermission("*").Err?
    ensures ParsePermission("myperm*").Err? && ParsePermission("myperm*.").Err?
  {
    ParseAcceptances("my.*");
    assert "my.*"[2..] == ".*" && "my.*"[..2] == "my";
    ParseAgreesOnAscii("my.perm");
    ParseAgreesOnAscii("my.*");
    ParseAgreesOnAscii("");
    ParseAgreesOnAscii(".");
    ParseAgreesOnAscii("*");
    ParseAgreesOnAscii("myperm*");
    ParseAgreesOnAscii("myperm*.");
  }
}
