/** Scope strings: how they are printed, and how the regular expressions read them back. */
module Scopes {
  import opened Wrappers

  const ADMIN := "admin"
  const EDITOR := ":editor"
  const VIEWER := ":viewer"

  datatype Kind = Collections | Processes | Jobs {
    function Prefix(): string {
      match this
      case Collections => "collection-"
      case Processes => "process-"
      case Jobs => "job-"
    }
  }

  function EditorScope(kind: Kind, identifier: string): string { kind.Prefix() + identifier + EDITOR }

  function ViewerScope(kind: Kind, identifier: string): string { kind.Prefix() + identifier + VIEWER }

  // The expression `^<prefix>(.+):(editor|viewer)$`, matched as a backtracking engine does:
  // `.+` first takes as much as it can, then gives back one character at a time.

  /** How far `.` reaches: it does not match a newline. */
  function DotRun(s: string): (n: nat)
    ensures n <= |s| && '\n' !in s[..n]
    ensures n < |s| ==> s[n] == '\n'
  {
    if s == "" || s[0] == '\n' then 0 else
    var n := 1 + DotRun(s[1..]);
    assert s[..n] == [s[0]] + s[1..][..n - 1];
    n
  }

  /** `$` holds at the end, and also before a newline that ends the string. */
  predicate AtEnd(s: string, i: int) { i == |s| || (i == |s| - 1 && i >= 0 && s[i] == '\n') }

  /** The part of the expression after the group matches from position `e`. */
  predicate RoleEndsFrom(s: string, e: nat)
    requires e <= |s|
  {
    (EDITOR <= s[e..] || VIEWER <= s[e..]) && AtEnd(s, e + 7)
  }

  function Backtrack(s: string, e: nat): Option<string>
    requires e <= |s|
  {
    if e == 0 then None
    else if RoleEndsFrom(s, e) then Some(s[..e])
    else Backtrack(s, e - 1)
  }

  /** The group of the match, if the scope matches. */
  function MatchScope(kind: Kind, scope: string): Option<string> {
    if kind.Prefix() <= scope then
      var rest := scope[|kind.Prefix()|..];
      Backtrack(rest, DotRun(rest))
    else None
  }

  predicate WellFormed(identifier: string) { identifier != "" && '\n' !in identifier }

  /** What may follow an identifier: a role, and possibly a stray newline that `$` overlooks. */
  const TAILS := {EDITOR, VIEWER, EDITOR + "\n", VIEWER + "\n"}

  function Spell(kind: Kind, identifier: string, tail: string): string { kind.Prefix() + (identifier + tail) }

  /** The scopes from which an identifier is read: its editor and viewer scopes, either with a stray newline. */
  predicate Names(kind: Kind, scope: string, identifier: string) {
    exists tail | tail in TAILS :: scope == Spell(kind, identifier, tail)
  }

  lemma {:induction false} BacktrackFinds(s: string, e: nat)
    requires e <= |s|
    ensures match Backtrack(s, e)
      case Some(group) => 0 < |group| <= e && group == s[..|group|] && RoleEndsFrom(s, |group|)
      case None => forall i :: 0 < i <= e ==> !RoleEndsFrom(s, i)
  {
    if e > 0 && !RoleEndsFrom(s, e) {
      BacktrackFinds(s, e - 1);
    }
  }

  /** The group ends exactly where one of the tails is left. */
  lemma RoleTail(s: string, e: nat)
    requires e <= |s|
    ensures RoleEndsFrom(s, e) <==> s[e..] in TAILS
  {
    var tail := s[e..];
    if RoleEndsFrom(s, e) {
      var role := if EDITOR <= tail then EDITOR else VIEWER;
      assert tail == role + tail[7..];
      assert tail[7..] == "" || tail[7..] == "\n";
      assert tail == role || tail == role + "\n";
    }
    if tail == EDITOR + "\n" || tail == VIEWER + "\n" {
      assert s[|s| - 1] == tail[|tail| - 1] == '\n';
    }
  }

  /** No tail is a proper suffix of another, so the group can end at one place only. */
  lemma RoleEndIsUnique(s: string, d: nat, e: nat)
    requires d <= |s| && e <= |s| && s[d..] in TAILS && s[e..] in TAILS
    ensures d == e
  {
    assert s[d..][|s[d..]| - 1] == s[|s| - 1] && s[e..][|s[e..]| - 1] == s[|s| - 1];
  }

  /** What the regular expression reads: an identifier from exactly the scopes that name it. */
  lemma MatchExactly(kind: Kind, scope: string, identifier: string)
    ensures MatchScope(kind, scope) == Some(identifier) <==> WellFormed(identifier) && Names(kind, scope, identifier)
  {
    if MatchScope(kind, scope) == Some(identifier) {
      MatchedIsNamed(kind, scope, identifier);
    }
    if WellFormed(identifier) && Names(kind, scope, identifier) {
      NamedIsMatched(kind, scope, identifier);
    }
  }

  lemma MatchedIsNamed(kind: Kind, scope: string, identifier: string)
    requires MatchScope(kind, scope) == Some(identifier)
    ensures WellFormed(identifier) && Names(kind, scope, identifier)
  {
    var rest := scope[|kind.Prefix()|..];
    BacktrackFinds(rest, DotRun(rest));
    NewlineFreePrefix(rest, DotRun(rest), |identifier|);
    RoleTail(rest, |identifier|);
    SpelledFrom(kind, scope, |identifier|);
  }

  lemma NewlineFreePrefix(s: string, n: nat, m: nat)
    requires m <= n <= |s| && '\n' !in s[..n]
    ensures '\n' !in s[..m]
  {
    assert s[..m] == s[..n][..m];
  }

  lemma SpelledFrom(kind: Kind, scope: string, n: nat)
    requires kind.Prefix() <= scope && n <= |scope| - |kind.Prefix()|
    ensures var rest := scope[|kind.Prefix()|..];
      scope == Spell(kind, rest[..n], rest[n..])
  {
    var rest := scope[|kind.Prefix()|..];
    assert rest == rest[..n] + rest[n..];
  }

  lemma NamedIsMatched(kind: Kind, scope: string, identifier: string)
    requires WellFormed(identifier) && Names(kind, scope, identifier)
    ensures MatchScope(kind, scope) == Some(identifier)
  {
    var tail :| tail in TAILS && scope == Spell(kind, identifier, tail);
    var rest := scope[|kind.Prefix()|..];
    assert rest == identifier + tail && rest[|identifier|..] == tail && rest[..|identifier|] == identifier;
    RoleTail(rest, |identifier|);
    var n := DotRun(rest);
    assert forall i :: 0 <= i < |identifier| ==> rest[i] == identifier[i] && rest[i] != '\n';
    BacktrackFinds(rest, n);
    var group := Backtrack(rest, n).value;
    RoleTail(rest, |group|);
    RoleEndIsUnique(rest, |group|, |identifier|);
  }

  /** Printing an identifier and reading the scope back gives the identifier, whatever it contains but a newline. */
  lemma PrintParse(kind: Kind, identifier: string)
    requires WellFormed(identifier)
    ensures MatchScope(kind, EditorScope(kind, identifier)) == Some(identifier)
    ensures MatchScope(kind, ViewerScope(kind, identifier)) == Some(identifier)
  {
    PrintedNames(kind, identifier);
    MatchExactly(kind, EditorScope(kind, identifier), identifier);
    MatchExactly(kind, ViewerScope(kind, identifier), identifier);
  }

  lemma PrintedNames(kind: Kind, identifier: string)
    ensures Names(kind, EditorScope(kind, identifier), identifier)
    ensures Names(kind, ViewerScope(kind, identifier), identifier)
  {
    assert EditorScope(kind, identifier) == Spell(kind, identifier, EDITOR);
    assert ViewerScope(kind, identifier) == Spell(kind, identifier, VIEWER);
  }

  /** The identifiers read from a list of scopes. */
  function Identifiers(kind: Kind, scopes: seq<string>): seq<string> {
    if scopes == [] then [] else
    var m := MatchScope(kind, scopes[0]);
    (if m.Some? then [m.value] else []) + Identifiers(kind, scopes[1..])
  }

  lemma {:induction false} IdentifiersExactly(kind: Kind, scopes: seq<string>, identifier: string)
    ensures identifier in Identifiers(kind, scopes) <==>
            WellFormed(identifier) && exists scope :: scope in scopes && Names(kind, scope, identifier)
  {
    if scopes != [] {
      MatchExactly(kind, scopes[0], identifier);
      IdentifiersExactly(kind, scopes[1..], identifier);
      assert forall scope :: scope in scopes <==> scope == scopes[0] || scope in scopes[1..];
    }
  }

  predicate Holds(kind: Kind, scopes: seq<string>, identifier: string) {
    EditorScope(kind, identifier) in scopes || ViewerScope(kind, identifier) in scopes
  }

  /** An identifier's editor or viewer scope, followed by a newline. */
  predicate HoldsStray(kind: Kind, scopes: seq<string>, identifier: string) {
    EditorScope(kind, identifier) + "\n" in scopes || ViewerScope(kind, identifier) + "\n" in scopes
  }

  lemma NamedIsHeldOrStray(kind: Kind, scopes: seq<string>, identifier: string)
    ensures (exists scope :: scope in scopes && Names(kind, scope, identifier)) <==>
            Holds(kind, scopes, identifier) || HoldsStray(kind, scopes, identifier)
  {
    var editor, viewer := EditorScope(kind, identifier), ViewerScope(kind, identifier);
    assert editor == Spell(kind, identifier, EDITOR) && viewer == Spell(kind, identifier, VIEWER);
    assert editor + "\n" == Spell(kind, identifier, EDITOR + "\n");
    assert viewer + "\n" == Spell(kind, identifier, VIEWER + "\n");
    assert Names(kind, editor, identifier) && Names(kind, viewer, identifier);
    assert Names(kind, editor + "\n", identifier) && Names(kind, viewer + "\n", identifier);
  }

  /** For newline-free scopes an identifier is read exactly when its editor or viewer scope is held. */
  lemma ListedIffHeld(kind: Kind, scopes: seq<string>, identifier: string)
    requires identifier != "" && forall scope :: scope in scopes ==> '\n' !in scope
    ensures identifier in Identifiers(kind, scopes) <==> Holds(kind, scopes, identifier)
  {
    IdentifiersExactly(kind, scopes, identifier);
    NamedIsHeldOrStray(kind, scopes, identifier);
    var editor, viewer := EditorScope(kind, identifier), ViewerScope(kind, identifier);
    assert (editor + "\n")[|editor|] == '\n' && (viewer + "\n")[|viewer|] == '\n';
    forall c | c in identifier ensures c in editor && c in viewer {
    }
  }

  /** The check every scope passes before it is stored. */
  predicate IsValidScope(scope: string) {
    || scope in {ADMIN, "server-metadata:editor", "collection:creator", "process:creator"}
    || MatchScope(Collections, scope).Some? || MatchScope(Processes, scope).Some? || MatchScope(Jobs, scope).Some?
  }

  /** A role on a collection, process or job, as written down; `$` also lets a final newline pass. */
  predicate IsGrant(kind: Kind, identifier: string, scope: string) {
    var on := match kind case Collections => "collection-" case Processes => "process-" case Jobs => "job-";
    scope in {on + (identifier + ":editor"), on + (identifier + ":viewer"),
              on + (identifier + ":editor\n"), on + (identifier + ":viewer\n")}
  }

  /** A scope is valid exactly when it is one of four fixed ones or grants a role on something. */
  lemma ValidExactly(scope: string)
    ensures IsValidScope(scope) <==>
      || scope in {"admin", "server-metadata:editor", "collection:creator", "process:creator"}
      || exists kind, identifier :: IsGrant(kind, identifier, scope) && identifier != "" && '\n' !in identifier
  {
    MatchesAreGrants(Collections, scope);
    MatchesAreGrants(Processes, scope);
    MatchesAreGrants(Jobs, scope);
  }

  lemma MatchesAreGrants(kind: Kind, scope: string)
    ensures MatchScope(kind, scope).Some? <==>
      exists identifier :: IsGrant(kind, identifier, scope) && identifier != "" && '\n' !in identifier
  {
    forall identifier: string
      ensures MatchScope(kind, scope) == Some(identifier) <==>
        IsGrant(kind, identifier, scope) && identifier != "" && '\n' !in identifier
    {
      MatchExactly(kind, scope, identifier);
      NamesAreGrants(kind, identifier, scope);
    }
    if MatchScope(kind, scope).Some? {
      var identifier := MatchScope(kind, scope).value;
      assert IsGrant(kind, identifier, scope);
    }
  }

  lemma NamesAreGrants(kind: Kind, identifier: string, scope: string)
    ensures Names(kind, scope, identifier) <==> IsGrant(kind, identifier, scope)
  {
    assert EDITOR + "\n" == ":editor\n" && VIEWER + "\n" == ":viewer\n";
    assert forall tail | tail in TAILS :: Spell(kind, identifier, tail) == kind.Prefix() + (identifier + tail);
  }
}
