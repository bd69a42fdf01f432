/** Resolving a reference written in one contract document to the path of another. */
module ContractPaths {
  import opened Results
  import opened Paths

  // ------------------------------------------------------------- POSIX path algebra

  /** One piece of a path under normalisation, as `posixpath.normpath` treats it. */
  function NormStep(kept: seq<string>, piece: string, absolute: bool): seq<string> {
    if piece == "" || piece == "." then kept
    else if piece != ".." || (!absolute && kept == []) || (kept != [] && kept[|kept| - 1] == "..") then kept + [piece]
    else if kept != [] then kept[..|kept| - 1]
    else kept
  }

  function NormPieces(pieces: seq<string>, absolute: bool): seq<string> {
    if pieces == [] then [] else NormStep(NormPieces(pieces[..|pieces| - 1], absolute), pieces[|pieces| - 1], absolute)
  }

  function Normpath(path: string): string {
    var slashes := if "//" <= path && !("///" <= path) then "//" else if "/" <= path then "/" else "";
    var text := slashes + Join(NormPieces(Split(path), slashes != ""));
    if text == "" then "." else text
  }

  function Dirname(path: string): string {
    var pieces := Split(path);
    Join(pieces[..|pieces| - 1])
  }

  function JoinPath(directory: string, target: string): string {
    if "/" <= target then target
    else if directory == "" || directory[|directory| - 1] == '/' then directory + target
    else directory + "/" + target
  }

  function Resolve(current: string, decoded: string): string {
    Normpath(JoinPath(Dirname(current), decoded))
  }

  // ------------------------------------------------------------------ text checks

  predicate Contains(text: string, part: string) {
    part <= text || (text != "" && Contains(text[1..], part))
  }

  predicate IsHex(c: char) { '0' <= c <= '9' || 'a' <= c <= 'f' || 'A' <= c <= 'F' }

  /** A `%` that does not start a two-digit escape. */
  predicate BadEscape(text: string) {
    exists i :: 0 <= i < |text| && text[i] == '%' && !(i + 2 < |text| && IsHex(text[i + 1]) && IsHex(text[i + 2]))
  }

  /** The part of a reference before its fragment. */
  function File(reference: string): (file: string)
    ensures file <= reference && '#' !in file
    ensures file == reference || reference[|file|] == '#'
  {
    if reference == "" || reference[0] == '#' then "" else [reference[0]] + File(reference[1..])
  }

  predicate IsDot(piece: string) { piece == "" || piece == "." || piece == ".." }

  predicate NoDots(path: string) { forall p :: p in Split(path) ==> !IsDot(p) }

  /** The repository-relative paths that the release collector accepts. */
  predicate SafePath(path: string) {
    '\\' !in path && '\0' !in path && (path == "." || NoDots(path))
  }

  /** A path that the v2 builder accepts as already normalised. */
  predicate NormalizedRepoPath(path: string) {
    && path != "" && '\0' !in path && '\\' !in path && path[0] != '/'
    && !(|path| > 1 && path[1] == ':' && ('a' <= path[0] <= 'z' || 'A' <= path[0] <= 'Z'))
    && Normpath(path) == path && path != "." && path != ".." && !("../" <= path)
  }

  // ---------------------------------------------------------------- version roots

  predicate IsVersion(piece: string) {
    |piece| >= 2 && piece[0] == 'v' && '1' <= piece[1] <= '9' && forall i :: 2 <= i < |piece| ==> '0' <= piece[i] <= '9'
  }

  /** `contracts/product/v<n>/`, when the path lies below such a directory. */
  function VersionRoot(path: string): Option<string> {
    var p := Split(path);
    if |p| >= 4 && p[0] == "contracts" && p[1] == "product" && IsVersion(p[2]) then Some(Join(p[..3]) + "/") else None
  }

  /** The first four pieces of a bundle path that lies below `<repository>/contracts/product/<version>/`. */
  function ContractRoot(path: string): Option<string> {
    var p := Split(path);
    if |p| >= 5 && p[1] == "contracts" && p[2] == "product" then Some(Join(p[..4]) + "/") else None
  }

  lemma Regroup(first: string, middle: string, rest: string)
    ensures (first + "/" + middle) + "/" + rest == first + "/" + (middle + "/" + rest)
  {
  }

  lemma {:induction false} SplitAfter(pieces: seq<string>, rest: string)
    requires pieces != [] && forall i :: 0 <= i < |pieces| ==> '/' !in pieces[i]
    ensures Split(Join(pieces) + "/" + rest) == pieces + Split(rest)
  {
    if |pieces| == 1 {
      SplitPiece(pieces[0], rest);
    } else {
      SplitAfter(pieces[1..], rest);
      Regroup(pieces[0], Join(pieces[1..]), rest);
      SplitPiece(pieces[0], Join(pieces[1..]) + "/" + rest);
      assert pieces == [pieces[0]] + pieces[1..];
    }
  }

  /** A text that starts with the pieces of another path's root shares these pieces. */
  lemma SharedPieces(pieces: seq<string>, path: string)
    requires pieces != [] && forall i :: 0 <= i < |pieces| ==> '/' !in pieces[i]
    requires Join(pieces) + "/" <= path
    ensures |Split(path)| > |pieces| && Split(path)[..|pieces|] == pieces
  {
    var root := Join(pieces) + "/";
    var rest := path[|root|..];
    assert path == root + rest;
    SplitAfter(pieces, rest);
  }

  /** Documents below a version root keep that root. */
  lemma SameVersionRoot(source: string, target: string)
    requires VersionRoot(source).Some? && VersionRoot(source).value <= target
    ensures VersionRoot(target) == VersionRoot(source)
  {
    var p := Split(source);
    SharedPieces(p[..3], target);
    assert Split(target)[..3][0] == p[0] && Split(target)[..3][1] == p[1] && Split(target)[..3][2] == p[2];
  }

  lemma SameContractRoot(source: string, target: string)
    requires ContractRoot(source).Some? && ContractRoot(source).value <= target
    ensures ContractRoot(target) == ContractRoot(source)
  {
    var p := Split(source);
    SharedPieces(p[..4], target);
    assert Split(target)[..4][1] == p[1] && Split(target)[..4][2] == p[2];
  }

  // -------------------------------------------------------- normalised means no dots

  /** Normalised relative pieces have `..` only in front. */
  ghost predicate DotsInFront(pieces: seq<string>) {
    && (forall i :: 0 <= i < |pieces| ==> pieces[i] != "" && pieces[i] != "." && '/' !in pieces[i])
    && (forall i, j :: 0 <= i < j < |pieces| && pieces[j] == ".." ==> pieces[i] == "..")
  }

  lemma {:induction false} NormalisedPieces(pieces: seq<string>)
    requires forall i :: 0 <= i < |pieces| ==> '/' !in pieces[i]
    ensures DotsInFront(NormPieces(pieces, false))
  {
    if pieces != [] {
      NormalisedPieces(pieces[..|pieces| - 1]);
    }
  }

  lemma FrontDots(pieces: seq<string>)
    requires pieces != [] && pieces[0] == ".."
    ensures Join(pieces) == ".." || "../" <= Join(pieces)
  {
    if |pieces| > 1 {
      assert Join(pieces)[..3] == "../";
    }
  }

  /** What the v2 builder accepts has no empty and no dot segment. */
  lemma NormalizedHasNoDots(path: string)
    requires NormalizedRepoPath(path)
    ensures NoDots(path)
  {
    var kept := NormPieces(Split(path), false);
    NormalisedPieces(Split(path));
    assert path == Join(kept);
    assert kept != [];
    SplitInvertsJoin(kept);
    if kept[0] == ".." {
      FrontDots(kept);
      assert false;
    }
  }
}
