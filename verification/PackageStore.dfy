/**
 Capability packages on disk: the two write primitives for a single process, the
 files of a package in the order they are written, and the import of a package
 under a new versioned name.
 */
module PackageStore {
  import opened Common

  /** The files of a package; the first nine are written by this version, in this order. */
  datatype Part =
    | CapabilityYaml | InstructionsMd | HarnessYaml
    | TaskContractYaml | ArtifactsYaml | ValidationMd | ReplayPlanYaml
    | ValidatorPy | CardMd
    | LegacyManifest

  const PART_COUNT: nat := 9

  function PartAt(k: nat): Part
    requires k < PART_COUNT
  {
    match k
    case 0 => CapabilityYaml
    case 1 => InstructionsMd
    case 2 => HarnessYaml
    case 3 => TaskContractYaml
    case 4 => ArtifactsYaml
    case 5 => ValidationMd
    case 6 => ReplayPlanYaml
    case 7 => ValidatorPy
    case _ => CardMd
  }

  datatype Path = InPackage(name: string, part: Part) | TempFile(nonce: nat)

  type Files = map<Path, string>

  /** A finished write, or DuplicateWriteError for the path. */
  datatype WriteResult = Stored | DuplicateWrite(path: Path) {
    predicate IsFailure() { DuplicateWrite? }
    function PropagateFailure(): WriteResult requires DuplicateWrite? { this }
  }

  // ---- Package contents ----------------------------------------------------

  /** The first n files of package `name`, rendered and written over `files`. */
  function Written(files: Files, name: string, render: Part -> string, n: nat): Files
    requires n <= PART_COUNT
  {
    if n == 0 then files
    else Written(files, name, render, n - 1)[InPackage(name, PartAt(n - 1)) := render(PartAt(n - 1))]
  }

  /** The first of the parts k, k+1, ... that exists, or PART_COUNT. */
  function FirstExisting(files: Files, name: string, k: nat): (n: nat)
    requires k <= PART_COUNT
    ensures k <= n <= PART_COUNT
    ensures n < PART_COUNT ==> InPackage(name, PartAt(n)) in files
    ensures forall j: nat :: k <= j < n ==> InPackage(name, PartAt(j)) !in files
    decreases PART_COUNT - k
  {
    if k == PART_COUNT then k
    else if InPackage(name, PartAt(k)) in files then k
    else FirstExisting(files, name, k + 1)
  }

  lemma {:induction false} PartsDistinct(i: nat, j: nat)
    requires i < PART_COUNT && j < PART_COUNT && PartAt(i) == PartAt(j)
    ensures i == j
  {
  }

  /** Path by path: the first n parts hold their rendering, everything else is as before. */
  lemma {:induction false} WrittenAt(files: Files, name: string, render: Part -> string, n: nat, p: Path)
    requires n <= PART_COUNT
    ensures var w := Written(files, name, render, n);
            if exists k: nat :: k < n && p == InPackage(name, PartAt(k)) then p in w && w[p] == render(p.part)
            else (p in w <==> p in files) && (p in files ==> w[p] == files[p])
  {
    if n > 0 {
      WrittenAt(files, name, render, n - 1, p);
      if p == InPackage(name, PartAt(n - 1)) {
        assert n - 1 < n;
      } else {
        assert forall k: nat :: k < n && p == InPackage(name, PartAt(k)) ==> k < n - 1;
      }
    }
  }

  /** `manifest_path_for_capability`. */
  function ManifestPath(files: Files, name: string): Option<Path> {
    if InPackage(name, CapabilityYaml) in files then Some(InPackage(name, CapabilityYaml))
    else if InPackage(name, LegacyManifest) in files then Some(InPackage(name, LegacyManifest))
    else None
  }

  /** What n writes put in place: the first n of the nine files, in the order they are written. */
  lemma {:induction false} WrittenInOrder(files: Files, name: string, render: Part -> string, n: nat, p: Path)
    requires n <= PART_COUNT
    ensures var order := [CapabilityYaml, InstructionsMd, HarnessYaml, TaskContractYaml, ArtifactsYaml,
                          ValidationMd, ReplayPlanYaml, ValidatorPy, CardMd];
            var w := Written(files, name, render, n);
            if p.InPackage? && p.name == name && p.part in order[..n] then p in w && w[p] == render(p.part)
            else (p in w <==> p in files) && (p in files ==> w[p] == files[p])
  {
    var order := [CapabilityYaml, InstructionsMd, HarnessYaml, TaskContractYaml, ArtifactsYaml,
                  ValidationMd, ReplayPlanYaml, ValidatorPy, CardMd];
    assert forall k: nat :: k < PART_COUNT ==> PartAt(k) == order[k];
    WrittenAt(files, name, render, n, p);
    if p.InPackage? && p.part in order[..n] {
      var k :| 0 <= k < n && order[..n][k] == p.part;
      assert PartAt(k) == p.part;
    }
  }

  /** Once its first file is written, a package is read from it, whatever an older version left there. */
  lemma {:induction false} WrittenManifestIsRead(files: Files, name: string, render: Part -> string, n: nat)
    requires 0 < n <= PART_COUNT
    ensures var w := Written(files, name, render, n);
            ManifestPath(w, name) == Some(InPackage(name, CapabilityYaml)) &&
            w[InPackage(name, CapabilityYaml)] == render(CapabilityYaml)
  {
    var manifest := InPackage(name, CapabilityYaml);
    WrittenAt(files, name, render, n, manifest);
    assert exists k: nat :: k < n && manifest == InPackage(name, PartAt(k)) by {
      assert manifest == InPackage(name, PartAt(0));
    }
  }

  /** Writing a package removes no file. */
  lemma {:induction false} FilesOnlyGrow(files: Files, name: string, render: Part -> string, n: nat)
    requires n <= PART_COUNT
    ensures files.Keys <= Written(files, name, render, n).Keys
  {
    if n > 0 {
      FilesOnlyGrow(files, name, render, n - 1);
    }
  }

  /**
   Once a package write has been attempted, every later attempt under the name is
   refused at its very first file.  The attempt has written k files, whether it
   crashed there, met an existing file or finished, or it was itself refused at its
   first; files may have been added or replaced since.
   */
  lemma {:induction false} SecondWriteRefused(
    files: Files, name: string, render: Part -> string, k: nat, later: Files)
    requires k <= PART_COUNT && (k > 0 || FirstExisting(files, name, 0) == 0)
    requires Written(files, name, render, k).Keys <= later.Keys
    ensures FirstExisting(later, name, 0) == 0
  {
    var first := InPackage(name, PartAt(0));
    WrittenAt(files, name, render, k, first);
    assert k > 0 ==> exists j: nat :: j < k && first == InPackage(name, PartAt(j));
    assert first in Written(files, name, render, k);
  }

  // ---- Versioned names -----------------------------------------------------

  function Digit(d: nat): char
    requires d < 10
  {
    ('0' as int + d) as char
  }

  function Decimal(n: nat): string {
    if n < 10 then [Digit(n)] else Decimal(n / 10) + [Digit(n % 10)]
  }

  /** Reading a decimal numeral back. */
  function Value(s: string): int {
    if |s| == 0 then 0 else 10 * Value(s[..|s| - 1]) + (s[|s| - 1] as int - '0' as int)
  }

  lemma {:induction false} ValueOfDecimal(n: nat)
    ensures Value(Decimal(n)) == n
  {
    var s := Decimal(n);
    if n < 10 {
      assert s[..0] == [];
    } else {
      ValueOfDecimal(n / 10);
      assert s[..|s| - 1] == Decimal(n / 10);
    }
  }

  function Candidate(name: string, index: nat): string {
    name + "_v" + Decimal(index)
  }

  /** A versioned name is the name, `_v` and the index in decimal without leading zeros. */
  lemma {:induction false} CandidateText(name: string, index: nat)
    ensures name + "_v" <= Candidate(name, index)
    ensures var numeral := Candidate(name, index)[|name| + 2..];
            && numeral != ""
            && (forall i :: 0 <= i < |numeral| ==> '0' <= numeral[i] <= '9')
            && (|numeral| > 1 ==> numeral[0] != '0')
            && Value(numeral) == index
  {
    assert Candidate(name, index)[|name| + 2..] == Decimal(index);
    ValueOfDecimal(index);
    DecimalDigits(index);
  }

  lemma {:induction false} DecimalDigits(n: nat)
    ensures var s := Decimal(n);
            && s != ""
            && (forall i :: 0 <= i < |s| ==> '0' <= s[i] <= '9')
            && (n > 0 ==> s[0] != '0')
            && (|s| > 1 ==> n > 0)
  {
    if n >= 10 {
      DecimalDigits(n / 10);
    }
  }

  lemma {:induction false} CandidateInjective(name: string, i: nat, j: nat)
    requires Candidate(name, i) == Candidate(name, j)
    ensures i == j
  {
    assert Candidate(name, i)[|name| + 2..] == Decimal(i);
    assert Candidate(name, j)[|name| + 2..] == Decimal(j);
    ValueOfDecimal(i);
    ValueOfDecimal(j);
  }

  /** The names under which some manifest exists. */
  function ManifestNames(files: Files): set<string> {
    set p | p in files && p.InPackage? && p.part in {CapabilityYaml, LegacyManifest} :: p.name
  }

  lemma {:induction false} ManifestNamesExactly(files: Files, name: string)
    ensures name in ManifestNames(files) <==> ManifestPath(files, name).Some?
  {
    if InPackage(name, CapabilityYaml) in files {
      assert InPackage(name, CapabilityYaml).name in ManifestNames(files);
    }
    if InPackage(name, LegacyManifest) in files {
      assert InPackage(name, LegacyManifest).name in ManifestNames(files);
    }
  }

  /** The least version index from 2 up whose name has no manifest. */
  ghost predicate LeastFree(files: Files, name: string, index: nat) {
    && index >= 2
    && ManifestPath(files, Candidate(name, index)).None?
    && forall j: nat :: 2 <= j < index ==> ManifestPath(files, Candidate(name, j)).Some?
  }

  ghost predicate LeastFreeName(files: Files, name: string, candidate: string) {
    exists index: nat :: candidate == Candidate(name, index) && LeastFree(files, name, index)
  }

  datatype CollisionPolicy = FailOnCollision | Merge | Version | Overwrite

  datatype Import =
    | Imported(name: string, overwriteTarget: bool)
    | Exists(name: string)            // PortabilityImportExistsError
    | Refused(path: Path)             // DuplicateWriteError

  class FileStore {
    var files: Files
    /** Source of fresh names for temporary files. */
    var nonce: nat

    /** Temporary files may have been left behind, but none that carries a name yet to be given out. */
    ghost predicate Valid()
      reads this
    {
      forall p :: p in files && p.TempFile? ==> p.nonce < nonce
    }

    constructor ()
      ensures Valid() && files == map[]
    {
      files, nonce := map[], 0;
    }

    /** With no other writer about, the hard link cannot meet a file that the check did not see. */
    method WriteTextExclusive(path: Path, content: string) returns (r: WriteResult)
      requires Valid() && path.InPackage?
      modifies this
      ensures Valid()
      ensures path in old(files) ==> r == DuplicateWrite(path) && files == old(files)
      ensures path !in old(files) ==> r == Stored && files == old(files)[path := content]
    {
      if path in files {
        return DuplicateWrite(path);
      }
      var temp := TempFile(nonce);
      nonce := nonce + 1;
      files := files[temp := content];
      files := files[path := files[temp]];
      files := files - {temp};
      r := Stored;
    }

    method WriteTextAtomic(path: Path, content: string)
      requires Valid() && path.InPackage?
      modifies this
      ensures Valid() && files == old(files)[path := content]
    {
      var temp := TempFile(nonce);
      nonce := nonce + 1;
      files := files[temp := content];
      files := files[path := files[temp]];
      files := files - {temp};
    }

    /** Write part k exclusively, when the parts before it have been written over `before`. */
    method WriteNext(name: string, render: Part -> string, k: nat, ghost before: Files) returns (r: WriteResult)
      requires Valid() && k < PART_COUNT
      requires k <= FirstExisting(before, name, 0)
      requires files == Written(before, name, render, k)
      modifies this
      ensures Valid()
      ensures r.Stored? ==> k + 1 <= FirstExisting(before, name, 0) && files == Written(before, name, render, k + 1)
      ensures r.DuplicateWrite? ==>
                && k == FirstExisting(before, name, 0) && files == Written(before, name, render, k)
                && r.path == InPackage(name, PartAt(k))
    {
      var path := InPackage(name, PartAt(k));
      WrittenAt(before, name, render, k, path);
      assert forall j: nat :: j < k && PartAt(j) == PartAt(k) ==> false by {
        forall j: nat | j < k && PartAt(j) == PartAt(k) ensures false { PartsDistinct(j, k); }
      }
      r := WriteTextExclusive(path, render(PartAt(k)));
    }

    /** All nine files, or those before the first that already exists. */
    method WriteCapabilityPackage(name: string, render: Part -> string) returns (r: WriteResult)
      requires Valid()
      modifies this
      ensures Valid()
      ensures var n := FirstExisting(old(files), name, 0);
              && files == Written(old(files), name, render, n)
              && r == if n == PART_COUNT then Stored else DuplicateWrite(InPackage(name, PartAt(n)))
    {
      ghost var before := files;
      :- WriteNext(name, render, 0, before);
      :- WriteNext(name, render, 1, before);
      :- WriteNext(name, render, 2, before);
      :- WriteNext(name, render, 3, before);
      :- WriteNext(name, render, 4, before);
      :- WriteNext(name, render, 5, before);
      :- WriteNext(name, render, 6, before);
      :- WriteNext(name, render, 7, before);
      :- WriteNext(name, render, 8, before);
      r := Stored;
    }

    /** The same files, replacing whatever is there. */
    method UpdateManifest(name: string, render: Part -> string)
      requires Valid()
      modifies this
      ensures Valid() && files == Written(old(files), name, render, PART_COUNT)
    {
      ghost var before := files;
      UpdatePart(name, render, 0, before);
      UpdatePart(name, render, 1, before);
      UpdatePart(name, render, 2, before);
      UpdatePart(name, render, 3, before);
      UpdatePart(name, render, 4, before);
      UpdatePart(name, render, 5, before);
      UpdatePart(name, render, 6, before);
      UpdatePart(name, render, 7, before);
      UpdatePart(name, render, 8, before);
    }

    method UpdatePart(name: string, render: Part -> string, k: nat, ghost before: Files)
      requires Valid() && k < PART_COUNT && files == Written(before, name, render, k)
      modifies this
      ensures Valid() && files == Written(before, name, render, k + 1)
    {
      WriteTextAtomic(InPackage(name, PartAt(k)), render(PartAt(k)));
    }

    /** The search ends because there are finitely many packages and candidates are distinct. */
    method NextVersionedName(name: string) returns (candidate: string)
      ensures LeastFreeName(files, name, candidate)
    {
      var index := 2;
      ghost var left := ManifestNames(files);
      while true
        invariant index >= 2
        invariant forall j: nat :: 2 <= j < index ==> ManifestPath(files, Candidate(name, j)).Some?
        invariant forall j: nat :: j >= index && Candidate(name, j) in ManifestNames(files) ==>
                    Candidate(name, j) in left
        decreases |left|
      {
        candidate := Candidate(name, index);
        if ManifestPath(files, candidate).None? {
          assert LeastFree(files, name, index);
          return;
        }
        ManifestNamesExactly(files, candidate);
        forall j: nat | j >= index + 1 && Candidate(name, j) in ManifestNames(files)
          ensures Candidate(name, j) in left - {candidate}
        {
          if Candidate(name, j) == candidate { CandidateInjective(name, j, index); }
        }
        left := left - {candidate};
        index := index + 1;
      }
    }

    /** `_materialize_package`; `target` is the name imported under. */
    method MaterializePackage(name: string, policy: CollisionPolicy, render: string -> Part -> string)
      returns (r: Import, ghost target: string)
      requires Valid()
      modifies this
      ensures Valid()
      ensures var taken := ManifestPath(old(files), name).Some?;
              && (if policy == Version && taken then LeastFreeName(old(files), name, target) else target == name)
              && if taken && policy != Version then
                   && files == (if policy == Overwrite then Written(old(files), name, render(name), PART_COUNT)
                                else old(files))
                   && r == (if policy == FailOnCollision then Exists(name) else Imported(name, true))
                 else
                   var n := FirstExisting(old(files), target, 0);
                   && files == Written(old(files), target, render(target), n)
                   && r == (if n == PART_COUNT then Imported(target, false) else Refused(InPackage(target, PartAt(n))))
    {
      var chosen := name;
      var taken := ManifestPath(files, name).Some?;
      if policy == Version && taken {
        chosen := NextVersionedName(name);
        taken := false;
      }
      target := chosen;
      if !taken {
        var w := WriteCapabilityPackage(chosen, render(chosen));
        if w.DuplicateWrite? {
          return Refused(w.path), target;
        }
        return Imported(chosen, false), target;
      }
      if policy == FailOnCollision {
        return Exists(chosen), target;
      }
      if policy == Overwrite {
        UpdateManifest(chosen, render(chosen));
      }
      r := Imported(chosen, true);
    }
  }

  /**
   An import that does not overwrite leaves every existing file as it is; one that
   does changes files of its own package only.
   */
  lemma {:induction false} ImportTouchesOwnPackage(files: Files, name: string, render: Part -> string, n: nat, p: Path)
    requires n <= PART_COUNT && p in files
    requires n <= FirstExisting(files, name, 0) || p.TempFile? || p.name != name
    ensures p in Written(files, name, render, n) && Written(files, name, render, n)[p] == files[p]
  {
    WrittenAt(files, name, render, n, p);
    forall k: nat | k < n
      ensures p != InPackage(name, PartAt(k))
    {
    }
  }

  /**
   Exactly when a version import meets a collision after all: the directory of the
   least free name still holds one of the other package files.
   */
  lemma {:induction false} VersionImportCollides(files: Files, name: string, index: nat)
    requires LeastFree(files, name, index)
    ensures FirstExisting(files, Candidate(name, index), 0) < PART_COUNT
            <==> exists part :: part != LegacyManifest && InPackage(Candidate(name, index), part) in files
  {
    var target := Candidate(name, index);
    if part: Part :| part != LegacyManifest && InPackage(target, part) in files {
      var k := match part
        case CapabilityYaml => 0 case InstructionsMd => 1 case HarnessYaml => 2
        case TaskContractYaml => 3 case ArtifactsYaml => 4 case ValidationMd => 5
        case ReplayPlanYaml => 6 case ValidatorPy => 7 case _ => 8;
      assert PartAt(k) == part;
    }
  }

  /** Such a store: a free second version whose directory keeps a stray instructions file. */
  lemma {:induction false} VersionImportCanCollide(name: string)
    ensures var stray := InPackage(Candidate(name, 2), InstructionsMd);
            var files: Files := map[InPackage(name, CapabilityYaml) := "", stray := ""];
            LeastFree(files, name, 2) && FirstExisting(files, Candidate(name, 2), 0) == 1
  {
    assert |Candidate(name, 2)| > |name|;
    assert PartAt(0) == CapabilityYaml && PartAt(1) == InstructionsMd;
  }
}
