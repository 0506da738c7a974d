/** Laying a dataset out on disk: path checks, population, verification (materialization.py, dataset_export.py). */
module Export {
  import opened Models

  const MANIFEST_FILENAME := "dataset-manifest.json"
  const PRIVATE := ".content"

  datatype Member = Member(path: string, content: ContentId, byteSize: int)

  // ---- paths ----------------------------------------------------------------------------------

  function Components(path: string): (parts: seq<string>)
    ensures parts != []
  {
    if path == [] then [""]
    else
      var front, c := Components(path[..|path| - 1]), path[|path| - 1];
      if c == '/' then front + [""] else front[..|front| - 1] + [front[|front| - 1] + [c]]
  }

  predicate SafeComponent(part: string) {
    part != "" && part != ".." && part[|part| - 1] != '.' && part[|part| - 1] != ' '
  }

  predicate SafeCharacter(c: char) { c != '\\' && c != ':' && c >= ' ' }

  /** Relative, in normal form, no component "." or "..", none ending in a dot or a blank, no odd characters. */
  predicate SafeExportPath(path: string) {
    && (forall part | part in Components(path) :: SafeComponent(part))
    && (forall c | c in path :: SafeCharacter(c))
  }

  /** NFC normalisation followed by case folding, which works between slashes. */
  type Fold = string -> string

  ghost predicate FoldsBetweenSlashes(fold: Fold) {
    && (forall a, b :: fold(a + "/" + b) == fold(a) + "/" + fold(b))
    && fold(MANIFEST_FILENAME) == MANIFEST_FILENAME && fold(PRIVATE) == PRIVATE
  }

  predicate Conflict(a: string, b: string) {
    a == b || b + "/" <= a || a + "/" <= b
  }

  ghost predicate Accepted(fold: Fold, paths: seq<string>) {
    && (forall i | 0 <= i < |paths| ::
      SafeExportPath(paths[i]) && !Conflict(fold(paths[i]), MANIFEST_FILENAME) && !Conflict(fold(paths[i]), PRIVATE))
    && (forall i, j | 0 <= i < j < |paths| :: !Conflict(fold(paths[i]), fold(paths[j])))
  }

  datatype ExportError = UnsafePath(path: string) | PathCollision(path: string) | FileExists | VerificationFailed

  method ValidatePaths(fold: Fold, paths: seq<string>) returns (error: Option<ExportError>)
    ensures error.None? <==> Accepted(fold, paths)
  {
    var taken := {MANIFEST_FILENAME, PRIVATE};
    for i := 0 to |paths|
      invariant Accepted(fold, paths[..i])
      invariant forall t :: t in taken <==> t == MANIFEST_FILENAME || t == PRIVATE || IsTaken(fold, paths[..i], t)
    {
      var path := fold(paths[i]);
      if !SafeExportPath(paths[i]) { return Some(UnsafePath(paths[i])); }
      if other :| other in taken && Conflict(path, other) {
        TakenConflicts(fold, paths, i, other);
        return Some(PathCollision(paths[i]));
      }
      OneMoreAccepted(fold, paths, i);
      taken := taken + {path};
    }
    assert paths[..|paths|] == paths;
    return None;
  }

  ghost predicate IsTaken(fold: Fold, paths: seq<string>, t: string) {
    exists k :: 0 <= k < |paths| && t == fold(paths[k])
  }

  lemma TakenConflicts(fold: Fold, paths: seq<string>, i: nat, other: string)
    requires i < |paths| && Conflict(fold(paths[i]), other)
    requires other == MANIFEST_FILENAME || other == PRIVATE || IsTaken(fold, paths[..i], other)
    ensures !Accepted(fold, paths)
  {
    if IsTaken(fold, paths[..i], other) {
      var k :| 0 <= k < i && other == fold(paths[..i][k]);
      assert Conflict(fold(paths[k]), fold(paths[i]));
    }
  }

  lemma OneMoreAccepted(fold: Fold, paths: seq<string>, i: nat)
    requires i < |paths| && Accepted(fold, paths[..i]) && SafeExportPath(paths[i])
    requires forall t | t == MANIFEST_FILENAME || t == PRIVATE || IsTaken(fold, paths[..i], t) ::
        !Conflict(fold(paths[i]), t)
    ensures Accepted(fold, paths[..i + 1])
    ensures forall t :: IsTaken(fold, paths[..i + 1], t) <==> IsTaken(fold, paths[..i], t) || t == fold(paths[i])
  {
    var before, after := paths[..i], paths[..i + 1];
    assert after == before + [paths[i]];
    forall k | 0 <= k < i ensures !Conflict(fold(after[k]), fold(paths[i])) {
      assert IsTaken(fold, before, fold(before[k]));
    }
    forall t ensures IsTaken(fold, after, t) <==> IsTaken(fold, before, t) || t == fold(paths[i]) {
      if IsTaken(fold, before, t) {
        var k :| 0 <= k < |before| && t == fold(before[k]);
        assert t == fold(after[k]);
      }
      assert fold(after[i]) == fold(paths[i]);
    }
  }

  // ---- a file system that may identify names ------------------------------------------------------

  /** A proper directory prefix of a path. */
  predicate Ancestor(a: string, path: string) {
    |a| < |path| && a == path[..|a|] && path[|a|] == '/'
  }

  /** The file system sees two of the needed names as one, or needs a file and a directory of one name. */
  ghost predicate Clash(norm: Fold, p: string, q: string) {
    || norm(p) == norm(q)
    || (exists a :: Ancestor(a, q) && norm(a) == norm(p))
    || (exists a :: Ancestor(a, p) && norm(a) == norm(q))
  }

  /** The file system tells apart whatever folding tells apart: exact names, or any case-insensitive scheme. */
  ghost predicate Refines(norm: Fold, fold: Fold) {
    forall a, b :: norm(a) == norm(b) ==> fold(a) == fold(b)
  }

  lemma AncestorFolds(fold: Fold, a: string, path: string)
    requires FoldsBetweenSlashes(fold) && Ancestor(a, path)
    ensures fold(a) + "/" <= fold(path)
  {
    var rest := path[|a| + 1..];
    assert path == a + "/" + rest;
    assert fold(path) == fold(a) + "/" + fold(rest);
  }

  /** Paths whose folded forms do not conflict never meet on any such file system. */
  lemma FoldingSeparates(norm: Fold, fold: Fold, p: string, q: string)
    requires FoldsBetweenSlashes(fold) && Refines(norm, fold) && !Conflict(fold(p), fold(q))
    ensures !Clash(norm, p, q)
  {
    forall a | Ancestor(a, q) ensures norm(a) != norm(p) { AncestorFolds(fold, a, q); }
    forall a | Ancestor(a, p) ensures norm(a) != norm(q) { AncestorFolds(fold, a, p); }
  }

  datatype Node = Folder | Regular(data: Bytes) | Link(target: string)

  type Nodes = map<string, Node>

  ghost predicate ParentsExist(norm: Fold, nodes: Nodes, path: string) {
    forall a | Ancestor(a, path) :: norm(a) in nodes && nodes[norm(a)] == Folder
  }

  /** What opening a path reads. */
  ghost function ReadBack(norm: Fold, nodes: Nodes, path: string): Option<Bytes> {
    if !ParentsExist(norm, nodes, path) || norm(path) !in nodes then None
    else match nodes[norm(path)]
      case Folder => None
      case Regular(data) => Some(data)
      case Link(target) =>
        if ParentsExist(norm, nodes, target) && norm(target) in nodes && nodes[norm(target)].Regular?
        then Some(nodes[norm(target)].data) else None
  }

  /** Every member reads back as its content with the size the manifest gives. */
  ghost predicate Verifies(norm: Fold, nodes: Nodes, members: seq<Member>) {
    forall m | m in members :: ReadBack(norm, nodes, m.path) == Some(m.content.data) && |m.content.data| == m.byteSize
  }

  ghost predicate Apart(norm: Fold, path: string) {
    forall a | Ancestor(a, path) :: norm(a) != norm(path)
  }

  ghost predicate NoClashes(norm: Fold, members: seq<Member>) {
    && (forall i | 0 <= i < |members| :: Apart(norm, members[i].path))
    && forall i, j | 0 <= i < j < |members| :: !Clash(norm, members[i].path, members[j].path)
  }

  // ---- population -------------------------------------------------------------------------------

  /** The name a content has in the private directory of a linked export. */
  function PrivatePath(hex: ContentId -> string, c: ContentId): string { PRIVATE + "/" + hex(c) }

  ghost predicate HexNames(norm: Fold, hex: ContentId -> string) {
    && (forall c, d :: norm(PrivatePath(hex, c)) == norm(PrivatePath(hex, d)) ==> c == d)
    && (forall c, i | 0 <= i < |hex(c)| :: hex(c)[i] != '/')
  }

  ghost predicate IsParentOf(norm: Fold, members: seq<Member>, key: string) {
    exists i, a :: 0 <= i < |members| && Ancestor(a, members[i].path) && norm(a) == key
  }

  ghost predicate IsFileOf(norm: Fold, members: seq<Member>, key: string) {
    exists i :: 0 <= i < |members| && norm(members[i].path) == key
  }

  /** The nodes are exactly the members' files and the directories above them. */
  ghost predicate Copied(norm: Fold, nodes: Nodes, members: seq<Member>) {
    && (forall i | 0 <= i < |members| ::
          norm(members[i].path) in nodes && nodes[norm(members[i].path)] == Regular(members[i].content.data))
    && (forall i, a | 0 <= i < |members| && Ancestor(a, members[i].path) ::
      norm(a) in nodes && nodes[norm(a)] == Folder)
    && (forall key | key in nodes :: if nodes[key] == Folder then IsParentOf(norm, members, key)
      else IsFileOf(norm, members, key))
  }

  class Staging {
    var nodes: Nodes
    const norm: Fold

    constructor (norm: Fold)
      ensures nodes == map[] && this.norm == norm
    {
      nodes := map[];
      this.norm := norm;
    }

    /** Creates the missing directories above a path, and fails on a file in their place. */
    method MakeParents(path: string) returns (ok: bool)
      modifies this
      ensures ok ==> ParentsExist(norm, nodes, path)
      ensures ok <==> forall a | Ancestor(a, path) && norm(a) in old(nodes) :: old(nodes)[norm(a)] == Folder
      ensures forall key | key in old(nodes) :: key in nodes && nodes[key] == old(nodes)[key]
      ensures forall key | key in nodes && key !in old(nodes) :: nodes[key] == Folder && exists a ::
          Ancestor(a, path) && norm(a) == key
    {
      for i := 0 to |path|
        invariant forall a | Ancestor(a, path) && |a| < i :: norm(a) in nodes && nodes[norm(a)] == Folder
        invariant forall a | Ancestor(a, path) && |a| < i && norm(a) in old(nodes) :: old(nodes)[norm(a)] == Folder
        invariant forall key | key in old(nodes) :: key in nodes && nodes[key] == old(nodes)[key]
        invariant forall key | key in nodes && key !in old(nodes) :: nodes[key] == Folder && exists a ::
            Ancestor(a, path) && norm(a) == key
      {
        if path[i] == '/' {
          var a := path[..i];
          assert Ancestor(a, path);
          assert forall b | Ancestor(b, path) && |b| == i :: b == a;
          if norm(a) in nodes {
            if nodes[norm(a)] != Folder { return false; }
          } else {
            nodes := nodes[norm(a) := Folder];
          }
        }
      }
      return true;
    }

    method CreateNew(path: string, node: Node) returns (ok: bool)
      modifies this
      ensures ok <==> norm(path) !in old(nodes)
      ensures nodes == if ok then old(nodes)[norm(path) := node] else old(nodes)
    {
      if norm(path) in nodes { return false; }
      nodes := nodes[norm(path) := node];
      return true;
    }

    method CopyMember(members: seq<Member>, i: nat) returns (ok: bool)
      requires i < |members| && NoClashes(norm, members[..i]) && Copied(norm, nodes, members[..i])
      modifies this
      ensures ok ==> NoClashes(norm, members[..i + 1]) && Copied(norm, nodes, members[..i + 1])
      ensures !ok ==> !NoClashes(norm, members)
    {
      ghost var before := nodes;
      ok := MakeParents(members[i].path);
      if !ok {
        ParentMeets(norm, before, members, i);
        return;
      }
      ghost var between := nodes;
      assert Added(norm, before, between, members[i].path);
      ok := CreateNew(members[i].path, Regular(members[i].content.data));
      if ok {
        NewIsApart(norm, before, between, members, i);
        OneMoreCopied(norm, before, between, members, i);
      } else {
        FileMeets(norm, before, between, members, i);
      }
    }

    /** Copying succeeds exactly when no two member paths meet on this file system. */
    method PopulateCopies(members: seq<Member>) returns (ok: bool)
      requires nodes == map[]
      modifies this
      ensures ok <==> NoClashes(norm, members)
      ensures ok ==> Copied(norm, nodes, members)
    {
      for i := 0 to |members|
        invariant NoClashes(norm, members[..i]) && Copied(norm, nodes, members[..i])
      {
        ok := CopyMember(members, i);
        if !ok { return; }
      }
      assert members[..|members|] == members;
      return true;
    }

    // ---- linked population, verification, and the whole export ----------------------------------

    method MakeDirectory(path: string) returns (ok: bool)
      modifies this
      ensures ok <==> norm(path) !in old(nodes) || old(nodes)[norm(path)] == Folder
      ensures nodes == if ok then old(nodes)[norm(path) := Folder] else old(nodes)
    {
      if norm(path) in nodes && nodes[norm(path)] != Folder { return false; }
      nodes := nodes[norm(path) := Folder];
      return true;
    }

    /** One member as a link to its content's private copy, which is written on first use. */
    method LinkMember(members: seq<Member>, hex: ContentId -> string, i: nat) returns (ok: bool)
      requires i < |members| && NoClashes(norm, members) && AllOutside(norm, hex, members) && HexNames(norm, hex)
      requires Linked(norm, hex, nodes, members[..i])
      modifies this
      ensures ok && Linked(norm, hex, nodes, members[..i + 1])
    {
      var m := members[i];
      var private := PrivatePath(hex, m.content);
      ghost var n0 := nodes;
      LinkParents(norm, hex, n0, members, i);
      ok := MakeParents(m.path);
      assert ok;
      ghost var n1 := nodes;
      assert Added(norm, n0, n1, m.path);
      PrivateIsFolder(norm, hex, n0, n1, members, i);
      ok := MakeDirectory(PRIVATE);
      assert ok;
      ghost var n2 := nodes;
      if norm(private) !in nodes {
        ok := CreateNew(private, Regular(m.content.data));
      }
      ghost var n3 := nodes;
      assert n2 == n1[norm(PRIVATE) := Folder];
      PrivateIsWritten(norm, hex, n0, n1, n2, n3, members, i);
      ok := CreateNew(m.path, Link(private));
      OneMoreLinked(norm, hex, n0, n1, n3, members, i);
    }

    method PopulateLinks(members: seq<Member>, hex: ContentId -> string) returns (ok: bool)
      requires nodes == map[] && NoClashes(norm, members) && AllOutside(norm, hex, members) && HexNames(norm, hex)
      modifies this
      ensures ok && Linked(norm, hex, nodes, members)
    {
      ok := true;
      for i := 0 to |members|
        invariant ok && Linked(norm, hex, nodes, members[..i])
      {
        ok := LinkMember(members, hex, i);
      }
      assert members[..|members|] == members;
    }

    method Open(path: string) returns (r: Option<Bytes>)
      ensures r == ReadBack(norm, nodes, path)
    {
      var reached := Parents(path);
      if !reached || norm(path) !in nodes { return None; }
      match nodes[norm(path)] {
        case Folder => return None;
        case Regular(data) => return Some(data);
        case Link(target) =>
          reached := Parents(target);
          if reached && norm(target) in nodes && nodes[norm(target)].Regular? { return Some(nodes[norm(target)].data); }
          return None;
      }
    }

    method Parents(path: string) returns (exist: bool)
      ensures exist <==> ParentsExist(norm, nodes, path)
    {
      for i := 0 to |path|
        invariant forall a | Ancestor(a, path) && |a| < i :: norm(a) in nodes && nodes[norm(a)] == Folder
      {
        if path[i] == '/' {
          assert Ancestor(path[..i], path);
          assert forall b | Ancestor(b, path) && |b| == i :: b == path[..i];
          if norm(path[..i]) !in nodes || nodes[norm(path[..i])] != Folder { return false; }
        }
      }
      return true;
    }

    method Verify(members: seq<Member>) returns (ok: bool)
      ensures ok <==> Verifies(norm, nodes, members)
    {
      for i := 0 to |members|
        invariant Verifies(norm, nodes, members[..i])
      {
        var data := Open(members[i].path);
        if data.None? || |data.value| != members[i].byteSize || Sha256(data.value) != members[i].content {
          assert members[i] in members;
          return false;
        }
      }
      assert members[..|members|] == members;
      return true;
    }

    /**
     * The whole export: it succeeds exactly when the paths are accepted and the sizes are true, on every
     * file system that folding refines; then the result verifies, with the manifest beside it.
     */
    method ExportTo(members: seq<Member>, fold: Fold, hex: ContentId -> string, symlink: bool, manifest: Bytes)
      returns (error: Option<ExportError>)
      requires nodes == map[]
      requires FoldsBetweenSlashes(fold) && Refines(norm, fold) && HexNames(norm, hex)
      modifies this
      ensures error.None? <==> Accepted(fold, Paths(members)) && SizesTrue(members)
      ensures error.Some? && Accepted(fold, Paths(members)) ==> error.value == VerificationFailed
      ensures error.None? ==> Verifies(norm, nodes, members)
      ensures error.None? ==> ReadBack(norm, nodes, MANIFEST_FILENAME) == Some(manifest)
    {
      error := ValidatePaths(fold, Paths(members));
      if error.Some? { return; }
      AcceptedIsRealisable(norm, fold, hex, members);
      var ok;
      if symlink {
        ok := PopulateLinks(members, hex);
        LinkedReads(norm, hex, nodes, members);
      } else {
        ok := PopulateCopies(members);
        CopiedReads(norm, nodes, members);
      }
      if !ok { return Some(FileExists); }
      ok := Verify(members);
      if !ok { return Some(VerificationFailed); }
      ManifestIsBeside(norm, fold, hex, nodes, members, manifest, symlink);
      nodes := nodes[norm(MANIFEST_FILENAME) := Regular(manifest)];
    }
  }

  function Paths(members: seq<Member>): seq<string> {
    seq(|members|, i requires 0 <= i < |members| => members[i].path)
  }

  predicate SizesTrue(members: seq<Member>) {
    forall m | m in members :: |m.content.data| == m.byteSize
  }

  /** Accepted paths leave room for every member, for the private directory and for the manifest. */
  lemma AcceptedIsRealisable(norm: Fold, fold: Fold, hex: ContentId -> string, members: seq<Member>)
    requires FoldsBetweenSlashes(fold) && Refines(norm, fold) && Accepted(fold, Paths(members))
    ensures NoClashes(norm, members) && AllOutside(norm, hex, members)
    ensures forall i | 0 <= i < |members| :: !Clash(norm, members[i].path, MANIFEST_FILENAME)
  {
    forall i | 0 <= i < |members|
      ensures Apart(norm, members[i].path) && Outside(norm, hex, members[i].path)
          && !Clash(norm, members[i].path, MANIFEST_FILENAME)
    {
      var p := Paths(members)[i];
      forall a | Ancestor(a, p) ensures norm(a) != norm(p) { AncestorFolds(fold, a, p); }
      ReservedIsOutside(norm, fold, hex, p);
      FoldingSeparates(norm, fold, p, MANIFEST_FILENAME);
    }
    forall i, j | 0 <= i < j < |members| ensures !Clash(norm, members[i].path, members[j].path) {
      FoldingSeparates(norm, fold, Paths(members)[i], Paths(members)[j]);
    }
  }

  ghost predicate Reads(norm: Fold, nodes: Nodes, members: seq<Member>) {
    forall m | m in members :: ReadBack(norm, nodes, m.path) == Some(m.content.data)
  }

  lemma CopiedReads(norm: Fold, nodes: Nodes, members: seq<Member>)
    ensures Copied(norm, nodes, members) ==> Reads(norm, nodes, members)
  {
    if Copied(norm, nodes, members) {
      forall m | m in members ensures ReadBack(norm, nodes, m.path) == Some(m.content.data) {
        var i :| 0 <= i < |members| && members[i] == m;
      }
    }
  }

  lemma PrivateParents(hex: ContentId -> string, norm: Fold, c: ContentId, a: string)
    requires HexNames(norm, hex) && Ancestor(a, PrivatePath(hex, c))
    ensures a == PRIVATE
  {
    var p := PrivatePath(hex, c);
    forall k | |PRIVATE| < k < |p| ensures p[k] != '/' {
      assert p[k] == hex(c)[k - |PRIVATE| - 1];
    }
  }

  lemma LinkedReads(norm: Fold, hex: ContentId -> string, nodes: Nodes, members: seq<Member>)
    requires HexNames(norm, hex) && Linked(norm, hex, nodes, members)
    ensures Reads(norm, nodes, members)
  {
    forall m | m in members ensures ReadBack(norm, nodes, m.path) == Some(m.content.data) {
      var i :| 0 <= i < |members| && members[i] == m;
      assert IsLinked(norm, hex, nodes, m);
      forall a | Ancestor(a, PrivatePath(hex, m.content))
        ensures a == PRIVATE { PrivateParents(hex, norm, m.content, a); }
    }
  }

  /** Writing the manifest replaces nothing, so everything still reads as before. */
  lemma ManifestIsBeside(norm: Fold, fold: Fold, hex: ContentId -> string, nodes: Nodes, members: seq<Member>,
        manifest: Bytes, symlink: bool)
    requires FoldsBetweenSlashes(fold) && Refines(norm, fold) && Accepted(fold, Paths(members)) && HexNames(norm, hex)
    requires if symlink then Linked(norm, hex, nodes, members) else Copied(norm, nodes, members)
    requires Verifies(norm, nodes, members)
    ensures
      var after := nodes[norm(MANIFEST_FILENAME) := Regular(manifest)];
      Verifies(norm, after, members) && ReadBack(norm, after, MANIFEST_FILENAME) == Some(manifest)
  {
    AcceptedIsRealisable(norm, fold, hex, members);
    ManifestIsPrivateFree(norm, fold, hex);
    var key := norm(MANIFEST_FILENAME);
    var after := nodes[key := Regular(manifest)];
    assert key !in nodes by {
      forall k | k in nodes ensures k != key {
        if symlink { assert KeyExplained(norm, hex, nodes, members, k); }
        if IsParentOf(norm, members, k) {
          var i, a :| 0 <= i < |members| && Ancestor(a, members[i].path) && norm(a) == k;
          assert !Clash(norm, members[i].path, MANIFEST_FILENAME);
        }
        if IsFileOf(norm, members, k) {
          var i :| 0 <= i < |members| && norm(members[i].path) == k;
          assert !Clash(norm, members[i].path, MANIFEST_FILENAME);
        }
      }
    }
    forall m | m in members ensures ReadBack(norm, after, m.path) == Some(m.content.data) {
      SameReading(norm, nodes, key, Regular(manifest), m.path);
    }
    forall a ensures !Ancestor(a, MANIFEST_FILENAME) {}
  }

  lemma ManifestIsPrivateFree(norm: Fold, fold: Fold, hex: ContentId -> string)
    requires FoldsBetweenSlashes(fold) && Refines(norm, fold)
    ensures norm(MANIFEST_FILENAME) != norm(PRIVATE)
    ensures forall c :: norm(MANIFEST_FILENAME) != norm(PrivatePath(hex, c))
  {
    forall c ensures fold(PrivatePath(hex, c)) != MANIFEST_FILENAME {
      assert fold(PrivatePath(hex, c)) == PRIVATE + "/" + fold(hex(c));
      assert fold(PrivatePath(hex, c))[0] == '.';
    }
  }

  lemma SameReading(norm: Fold, nodes: Nodes, key: string, node: Node, path: string)
    requires key !in nodes && ReadBack(norm, nodes, path).Some?
    ensures ReadBack(norm, nodes[key := node], path) == ReadBack(norm, nodes, path)
  {
  }

  /** A file stands where a directory is needed: it is an earlier member's. */
  lemma ParentMeets(norm: Fold, nodes: Nodes, members: seq<Member>, i: nat)
    requires i < |members| && Copied(norm, nodes, members[..i])
    requires exists a :: Ancestor(a, members[i].path) && norm(a) in nodes && nodes[norm(a)] != Folder
    ensures !NoClashes(norm, members)
  {
    var a :| Ancestor(a, members[i].path) && norm(a) in nodes && nodes[norm(a)] != Folder;
    var k :| 0 <= k < i && norm(members[..i][k].path) == norm(a);
    assert Clash(norm, members[k].path, members[i].path);
  }

  ghost predicate Added(norm: Fold, before: Nodes, nodes: Nodes, path: string) {
    && ParentsExist(norm, nodes, path)
    && (forall key | key in before :: key in nodes && nodes[key] == before[key])
    && (forall key | key in nodes && key !in before :: nodes[key] == Folder && exists a ::
      Ancestor(a, path) && norm(a) == key)
  }

  lemma FileMeets(norm: Fold, before: Nodes, nodes: Nodes, members: seq<Member>, i: nat)
    requires i < |members| && Copied(norm, before, members[..i])
    requires Added(norm, before, nodes, members[i].path) && norm(members[i].path) in nodes
    ensures !NoClashes(norm, members)
  {
    var key := norm(members[i].path);
    if key !in before {
      var a :| Ancestor(a, members[i].path) && norm(a) == key;
      assert !Apart(norm, members[i].path);
    } else if before[key] == Folder {
      assert IsParentOf(norm, members[..i], key);
      var k, a :| 0 <= k < i && Ancestor(a, members[..i][k].path) && norm(a) == key;
      assert Clash(norm, members[k].path, members[i].path);
    } else {
      assert IsFileOf(norm, members[..i], key);
      var k :| 0 <= k < i && norm(members[..i][k].path) == key;
      assert Clash(norm, members[k].path, members[i].path);
    }
  }

  lemma NewIsApart(norm: Fold, before: Nodes, nodes: Nodes, members: seq<Member>, i: nat)
    requires i < |members| && Copied(norm, before, members[..i]) && NoClashes(norm, members[..i])
    requires Added(norm, before, nodes, members[i].path) && norm(members[i].path) !in nodes
    ensures NoClashes(norm, members[..i + 1])
  {
    var p, all := members[i].path, members[..i + 1];
    forall k | 0 <= k < i ensures !Clash(norm, members[k].path, p) {
      assert norm(members[..i][k].path) in before && before[norm(members[..i][k].path)].Regular?;
      forall a | Ancestor(a, members[k].path) ensures norm(a) != norm(p) {
        assert Ancestor(a, members[..i][k].path);
        assert norm(a) in before;
      }
    }
    forall k, j | 0 <= k < j < |all| ensures !Clash(norm, all[k].path, all[j].path) {
      if j < i { assert !Clash(norm, members[..i][k].path, members[..i][j].path); }
    }
    forall k | 0 <= k < |all| ensures Apart(norm, all[k].path) {
      if k < i { assert Apart(norm, members[..i][k].path); }
    }
  }

  lemma OneMoreCopied(norm: Fold, before: Nodes, nodes: Nodes, members: seq<Member>, i: nat)
    requires i < |members| && Copied(norm, before, members[..i])
    requires Added(norm, before, nodes, members[i].path) && norm(members[i].path) !in nodes
    ensures Copied(norm, nodes[norm(members[i].path) := Regular(members[i].content.data)], members[..i + 1])
  {
    var key := norm(members[i].path);
    var after, all := nodes[key := Regular(members[i].content.data)], members[..i + 1];
    forall k, a | 0 <= k < |all| && Ancestor(a, all[k].path) ensures norm(a) in after && after[norm(a)] == Folder {
      if k < i { assert Ancestor(a, members[..i][k].path); }
    }
    forall k | 0 <= k < |all|
      ensures norm(all[k].path) in after && after[norm(all[k].path)] == Regular(all[k].content.data) {
      if k < i { assert norm(members[..i][k].path) in before; }
    }
    forall x | x in after
      ensures if after[x] == Folder then IsParentOf(norm, all, x) else IsFileOf(norm, all, x)
    {
      if x == key {
        assert norm(all[i].path) == x;
      } else if x in before {
        KindStays(norm, members, i, x);
      } else {
        var a :| Ancestor(a, members[i].path) && norm(a) == x;
        assert Ancestor(a, all[i].path);
      }
    }
  }

  lemma KindStays(norm: Fold, members: seq<Member>, i: nat, key: string)
    requires i < |members|
    ensures IsParentOf(norm, members[..i], key) ==> IsParentOf(norm, members[..i + 1], key)
    ensures IsFileOf(norm, members[..i], key) ==> IsFileOf(norm, members[..i + 1], key)
  {
    if IsParentOf(norm, members[..i], key) {
      var k, a :| 0 <= k < i && Ancestor(a, members[..i][k].path) && norm(a) == key;
      assert Ancestor(a, members[..i + 1][k].path);
    }
    if IsFileOf(norm, members[..i], key) {
      var k :| 0 <= k < i && norm(members[..i][k].path) == key;
      assert norm(members[..i + 1][k].path) == key;
    }
  }

  // ---- linked population --------------------------------------------------------------------------

  /** A member path keeps clear of the private directory and of everything in it. */
  ghost predicate Outside(norm: Fold, hex: ContentId -> string, path: string) {
    && norm(path) != norm(PRIVATE)
    && (forall a | Ancestor(a, path) :: norm(a) != norm(PRIVATE))
    && (forall c :: norm(path) != norm(PrivatePath(hex, c)))
    && (forall a, c | Ancestor(a, path) :: norm(a) != norm(PrivatePath(hex, c)))
    && (forall c :: norm(PRIVATE) != norm(PrivatePath(hex, c)))
  }

  ghost predicate AllOutside(norm: Fold, hex: ContentId -> string, members: seq<Member>) {
    forall i | 0 <= i < |members| :: Outside(norm, hex, members[i].path)
  }

  lemma ReservedIsOutside(norm: Fold, fold: Fold, hex: ContentId -> string, path: string)
    requires FoldsBetweenSlashes(fold) && Refines(norm, fold) && !Conflict(fold(path), PRIVATE)
    ensures Outside(norm, hex, path)
  {
    forall a | Ancestor(a, path) ensures fold(a) + "/" <= fold(path) { AncestorFolds(fold, a, path); }
    forall c ensures fold(PrivatePath(hex, c)) == PRIVATE + "/" + fold(hex(c)) {}
    forall a, c | Ancestor(a, path) ensures fold(a) != fold(PrivatePath(hex, c)) {
      assert PRIVATE + "/" <= fold(PrivatePath(hex, c));
      assert !(PRIVATE + "/" <= fold(a));
    }
    forall c ensures norm(PRIVATE) != norm(PrivatePath(hex, c)) {
      assert |fold(PrivatePath(hex, c))| > |PRIVATE|;
    }
  }

  ghost predicate IsPrivateOf(norm: Fold, hex: ContentId -> string, key: string, data: Bytes) {
    exists c :: norm(PrivatePath(hex, c)) == key && data == c.data
  }

  /** Links for the members, one private copy for each content, and the directories above them. */
  ghost predicate Linked(norm: Fold, hex: ContentId -> string, nodes: Nodes, members: seq<Member>) {
    && (forall i | 0 <= i < |members| :: IsLinked(norm, hex, nodes, members[i]))
    && (forall key | key in nodes :: KeyExplained(norm, hex, nodes, members, key))
  }

  ghost predicate IsLinked(norm: Fold, hex: ContentId -> string, nodes: Nodes, m: Member) {
    && norm(m.path) in nodes && nodes[norm(m.path)] == Link(PrivatePath(hex, m.content))
    && ParentsExist(norm, nodes, m.path)
    && norm(PRIVATE) in nodes && nodes[norm(PRIVATE)] == Folder
    && norm(PrivatePath(hex, m.content)) in nodes && nodes[norm(PrivatePath(hex, m.content))] == Regular(m.content.data)
  }

  ghost predicate KeyExplained(norm: Fold, hex: ContentId -> string, nodes: Nodes, members: seq<Member>, key: string)
    requires key in nodes
  {
    match nodes[key]
    case Folder => key == norm(PRIVATE) || IsParentOf(norm, members, key)
    case Link(_) => IsFileOf(norm, members, key)
    case Regular(data) => IsPrivateOf(norm, hex, key, data)
  }

  /** No earlier member needs the place of a later one, as a file or as a directory. */
  lemma NotEarlier(norm: Fold, members: seq<Member>, i: nat)
    requires i < |members| && NoClashes(norm, members)
    ensures !IsFileOf(norm, members[..i], norm(members[i].path))
        && !IsParentOf(norm, members[..i], norm(members[i].path))
    ensures forall a | Ancestor(a, members[i].path) :: !IsFileOf(norm, members[..i], norm(a))
  {
    forall k | 0 <= k < i ensures !Clash(norm, members[..i][k].path, members[i].path) {}
  }

  /** No member needs the place of the private directory or of a private copy. */
  lemma NotPrivate(norm: Fold, hex: ContentId -> string, members: seq<Member>, i: nat)
    requires i < |members| && AllOutside(norm, hex, members)
    ensures !IsFileOf(norm, members[..i], norm(PRIVATE))
    ensures forall c ::
        !IsFileOf(norm, members[..i], norm(PrivatePath(hex, c)))
        && !IsParentOf(norm, members[..i], norm(PrivatePath(hex, c)))
    ensures forall c :: norm(PRIVATE) != norm(PrivatePath(hex, c))
  {
    assert Outside(norm, hex, members[i].path);
    forall k | 0 <= k < i ensures Outside(norm, hex, members[..i][k].path) {}
  }

  lemma LinkParents(norm: Fold, hex: ContentId -> string, nodes: Nodes, members: seq<Member>, i: nat)
    requires i < |members| && NoClashes(norm, members) && AllOutside(norm, hex, members)
    requires Linked(norm, hex, nodes, members[..i])
    ensures forall a | Ancestor(a, members[i].path) && norm(a) in nodes :: nodes[norm(a)] == Folder
  {
    NotEarlier(norm, members, i);
    assert Outside(norm, hex, members[i].path);
    forall a | Ancestor(a, members[i].path) && norm(a) in nodes ensures nodes[norm(a)] == Folder {
      assert KeyExplained(norm, hex, nodes, members[..i], norm(a));
    }
  }

  lemma PrivateIsFolder(norm: Fold, hex: ContentId -> string, before: Nodes, nodes: Nodes, members: seq<Member>, i: nat)
    requires i < |members| && AllOutside(norm, hex, members)
    requires Linked(norm, hex, before, members[..i]) && Added(norm, before, nodes, members[i].path)
    ensures norm(PRIVATE) in nodes ==> nodes[norm(PRIVATE)] == Folder
  {
    NotPrivate(norm, hex, members, i);
    if norm(PRIVATE) in before {
      assert KeyExplained(norm, hex, before, members[..i], norm(PRIVATE));
    }
  }

  lemma PrivateIsWritten(norm: Fold, hex: ContentId -> string, n0: Nodes, n1: Nodes, n2: Nodes, n3: Nodes,
        members: seq<Member>, i: nat)
    requires i < |members| && AllOutside(norm, hex, members) && HexNames(norm, hex) && NoClashes(norm, members)
    requires Linked(norm, hex, n0, members[..i]) && Added(norm, n0, n1, members[i].path)
    requires norm(PRIVATE) in n1 ==> n1[norm(PRIVATE)] == Folder
    requires n2 == n1[norm(PRIVATE) := Folder]
    requires var key := norm(PrivatePath(hex, members[i].content));
             n3 == if key in n2 then n2 else n2[key := Regular(members[i].content.data)]
    ensures var key := norm(PrivatePath(hex, members[i].content));
            key in n3 && n3[key] == Regular(members[i].content.data)
    ensures norm(members[i].path) !in n3
  {
    var m := members[i];
    var key := norm(PrivatePath(hex, m.content));
    assert Outside(norm, hex, m.path);
    if key in n0 {
      PrivateKeyIsRegular(norm, hex, n0, members, i, m.content);
    }
    MemberKeyIsFree(norm, hex, n0, members, i);
    assert Apart(norm, m.path);
  }

  lemma PrivateKeyIsRegular(norm: Fold, hex: ContentId -> string, nodes: Nodes, members: seq<Member>, i: nat,
        c: ContentId)
    requires i < |members| && AllOutside(norm, hex, members) && HexNames(norm, hex)
    requires Linked(norm, hex, nodes, members[..i]) && norm(PrivatePath(hex, c)) in nodes
    ensures nodes[norm(PrivatePath(hex, c))] == Regular(c.data)
  {
    NotPrivate(norm, hex, members, i);
    assert KeyExplained(norm, hex, nodes, members[..i], norm(PrivatePath(hex, c)));
  }

  lemma MemberKeyIsFree(norm: Fold, hex: ContentId -> string, nodes: Nodes, members: seq<Member>, i: nat)
    requires i < |members| && NoClashes(norm, members) && AllOutside(norm, hex, members)
    requires Linked(norm, hex, nodes, members[..i])
    ensures norm(members[i].path) !in nodes
  {
    NotEarlier(norm, members, i);
    assert Outside(norm, hex, members[i].path);
    forall key | key in nodes ensures key != norm(members[i].path) {
      assert KeyExplained(norm, hex, nodes, members[..i], key);
    }
  }

  lemma OneMoreLinked(norm: Fold, hex: ContentId -> string, n0: Nodes, n1: Nodes, n3: Nodes, members: seq<Member>,
        i: nat)
    requires i < |members| && AllOutside(norm, hex, members)
    requires Linked(norm, hex, n0, members[..i]) && Added(norm, n0, n1, members[i].path)
    requires norm(PRIVATE) in n3 && n3[norm(PRIVATE)] == Folder
    requires forall key | key in n1 :: key in n3 && n3[key] == n1[key]
    requires forall key | key in n3 && key !in n1 ::
        key == norm(PRIVATE) || key == norm(PrivatePath(hex, members[i].content))
    requires var key := norm(PrivatePath(hex, members[i].content));
        key in n3 && n3[key] == Regular(members[i].content.data)
    requires norm(members[i].path) !in n3
    ensures Linked(norm, hex, n3[norm(members[i].path) := Link(PrivatePath(hex, members[i].content))], members[..i + 1])
  {
    var m := members[i];
    var after, all := n3[norm(m.path) := Link(PrivatePath(hex, m.content))], members[..i + 1];
    assert Outside(norm, hex, m.path);
    forall k | 0 <= k < |all| ensures IsLinked(norm, hex, after, all[k]) {
      if k < i {
        assert IsLinked(norm, hex, n0, members[..i][k]);
      }
    }
    forall key | key in after ensures KeyExplained(norm, hex, after, all, key) {
      KeyStaysExplained(norm, hex, n0, n1, n3, members, i, key);
    }
  }

  lemma KeyStaysExplained(norm: Fold, hex: ContentId -> string, n0: Nodes, n1: Nodes, n3: Nodes, members: seq<Member>,
        i: nat, key: string)
    requires i < |members|
    requires forall k | k in n0 :: KeyExplained(norm, hex, n0, members[..i], k)
    requires Added(norm, n0, n1, members[i].path)
    requires norm(PRIVATE) in n3 && n3[norm(PRIVATE)] == Folder
    requires forall k | k in n1 :: k in n3 && n3[k] == n1[k]
    requires forall k | k in n3 && k !in n1 :: k == norm(PRIVATE) || k == norm(PrivatePath(hex, members[i].content))
    requires var k := norm(PrivatePath(hex, members[i].content)); k in n3 && n3[k] == Regular(members[i].content.data)
    requires norm(members[i].path) !in n3
    requires key == norm(members[i].path) || key in n3
    ensures KeyExplained(norm, hex, n3[norm(members[i].path) := Link(PrivatePath(hex, members[i].content))],
        members[..i + 1], key)
  {
    var m, all := members[i], members[..i + 1];
    if key == norm(m.path) {
      assert norm(all[i].path) == key;
    } else if key in n0 {
      assert KeyExplained(norm, hex, n0, members[..i], key);
      KindStays(norm, members, i, key);
    } else if key in n1 {
      var a :| Ancestor(a, m.path) && norm(a) == key;
      assert Ancestor(a, all[i].path);
    }
  }
}
