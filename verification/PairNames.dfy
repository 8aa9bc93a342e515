/**
  Names used by the transactional pair replacement: the two destination files
  of a target, and its staging and backup files.

  Several targets may share one directory, so the names decide whether
  replacing one target can reach the files of another.
 */
module PairNames {

  /** The four patterns that replacePair hands to createTemp. */
  datatype TempKind = CertSync | KeySync | CertBackup | KeyBackup

  const SUFFIX := ".tmp"

  function Marker(kind: TempKind): string {
    match kind
    case CertSync => "-cert-sync-"
    case KeySync => "-key-sync-"
    case CertBackup => "-cert-backup-"
    case KeyBackup => "-key-backup-"
  }

  predicate IsStaging(kind: TempKind) {
    kind.CertSync? || kind.KeySync?
  }

  function CertFile(target: string): string {
    target + ".pem"
  }

  function KeyFile(target: string): string {
    target + ".key"
  }

  /** os.CreateTemp replaces the star of a pattern by a decimal number. */
  predicate Digits(random: string) {
    |random| > 0 && forall i | 0 <= i < |random| :: '0' <= random[i] <= '9'
  }

  function Stem(target: string, kind: TempKind): string {
    "." + target + Marker(kind)
  }

  function TempName(target: string, kind: TempKind, random: string): string {
    Stem(target, kind) + random + SUFFIX
  }

  predicate HasSuffix(name: string, suffix: string) {
    |suffix| <= |name| && name[|name| - |suffix|..] == suffix
  }

  /** What cleanupStaging of a target deletes. */
  predicate Swept(target: string, name: string) {
    && (Stem(target, CertSync) <= name || Stem(target, KeySync) <= name)
    && HasSuffix(name, SUFFIX)
  }

  ghost predicate IsTemp(target: string, kind: TempKind, name: string) {
    exists random :: Digits(random) && name == TempName(target, kind, random)
  }

  ghost predicate IsBackup(target: string, name: string) {
    IsTemp(target, CertBackup, name) || IsTemp(target, KeyBackup, name)
  }

  ghost predicate IsOwnTemp(target: string, name: string) {
    IsTemp(target, CertSync, name) || IsTemp(target, KeySync, name) || IsBackup(target, name)
  }

  /** Every name that a replacement of the target may create, change or delete. */
  ghost predicate InFootprint(target: string, name: string) {
    name == CertFile(target) || name == KeyFile(target) || Swept(target, name) || IsBackup(target, name)
  }

  ghost function Footprint(target: string): iset<string> {
    iset f: string | InFootprint(target, f)
  }

  /**
    The sweep of one target reaches temporary files of the other. A caller can
    check this on two configured names before any replacement runs.
   */
  predicate Interferes(target: string, other: string) {
    target + "-cert-sync-" <= other + "-" || target + "-key-sync-" <= other + "-"
  }

  lemma TempEnding(name: string)
    requires HasSuffix(name, SUFFIX)
    ensures name[|name| - 3] == 't'
  {
    assert name[|name| - 4..][1] == SUFFIX[1];
  }

  lemma SuffixOfSum(a: string, b: string)
    ensures HasSuffix(a + b, b)
  {
    assert (a + b)[|a|..] == b;
  }

  /** Destination names and temporary names never meet, whatever the targets are. */
  lemma DestinationIsNotTemp(target: string, name: string)
    requires name == CertFile(target) || name == KeyFile(target)
    ensures !HasSuffix(name, SUFFIX)
    ensures forall owner :: !Swept(owner, name) && !IsOwnTemp(owner, name)
  {
    assert name[|name| - 3] != 't';
    if HasSuffix(name, SUFFIX) {
      TempEnding(name);
    }
    forall owner, kind, random
      ensures name != TempName(owner, kind, random)
    {
      SuffixOfSum(Stem(owner, kind) + random, SUFFIX);
    }
  }

  lemma DestinationsAreDistinct(target: string, other: string)
    ensures CertFile(target) != KeyFile(other)
    ensures target != other ==> CertFile(target) != CertFile(other) && KeyFile(target) != KeyFile(other)
  {
    assert CertFile(target)[|CertFile(target)| - 1] == 'm';
    assert KeyFile(other)[|KeyFile(other)| - 1] == 'y';
    assert CertFile(target)[..|target|] == target && CertFile(other)[..|other|] == other;
    assert KeyFile(target)[..|target|] == target && KeyFile(other)[..|other|] == other;
  }

  /** Nothing after the stem of a temporary name is a dash. */
  lemma NoDashAfterStem(target: string, kind: TempKind, random: string, at: nat)
    requires Digits(random)
    requires |Stem(target, kind)| <= at < |TempName(target, kind, random)|
    ensures TempName(target, kind, random)[at] != '-'
  {
    var rest := at - |Stem(target, kind)|;
    if rest < |random| {
      assert TempName(target, kind, random)[at] == random[rest];
    } else {
      assert TempName(target, kind, random)[at] == SUFFIX[rest - |random|];
    }
  }

  lemma StemEndsBefore(prefix: string, target: string, kind: TempKind, random: string)
    requires Digits(random) && |prefix| > 0 && prefix[|prefix| - 1] == '-'
    requires prefix <= TempName(target, kind, random)
    ensures prefix <= Stem(target, kind)
  {
    var name, stem := TempName(target, kind, random), Stem(target, kind);
    assert name[|prefix| - 1] == '-';
    if |stem| < |prefix| {
      NoDashAfterStem(target, kind, random, |prefix| - 1);
    }
    assert prefix == name[..|prefix|] == stem[..|prefix|];
  }

  /** Reading a marker from its end: what the tail of a stem says about its kind. */
  lemma MarkerTail(a: string, kind: TempKind)
    ensures var p := a + Marker(kind);
            && p[|p| - 1] == '-'
            && (p[|p| - 2] == 'c') == IsStaging(kind)
            && (IsStaging(kind) ==> p[|p| - 7] == if kind.CertSync? then 't' else 'y')
            && (!IsStaging(kind) ==> p[|p| - 9] == if kind.CertBackup? then 't' else 'y')
  {
    var m, p := Marker(kind), a + Marker(kind);
    assert p[|a|..] == m;
  }

  lemma SameTail(a: string, kind: TempKind, b: string, kind': TempKind)
    requires a + Marker(kind) == b + Marker(kind')
    ensures a == b && kind == kind'
  {
    MarkerTail(a, kind);
    MarkerTail(b, kind');
    var p := a + Marker(kind);
    assert p[..|a|] == a;
    assert (b + Marker(kind'))[..|b|] == b;
  }

  /** The only dashes of a marker are its first, its last and one that follows 't' or 'y'. */
  lemma InnerDash(kind: TempKind, at: nat)
    requires 0 < at < |Marker(kind)| - 1
    ensures Marker(kind)[at] == '-' ==> Marker(kind)[at - 1] != 'c'
  {
  }

  lemma DropDot(p: string, q: string)
    requires "." + p <= "." + q
    ensures p <= q
  {
    assert ("." + p)[1..] == p && ("." + q)[1..] == q;
    assert forall i | 0 <= i < |p| :: p[i] == ("." + p)[i + 1] == ("." + q)[i + 1] == q[i];
  }

  /**
    One staging stem is a prefix of another stem only for the same target and
    kind, or when the shorter target name interferes with the longer one.
   */
  lemma StemPrefix(target: string, staging: TempKind, other: string, kind: TempKind)
    requires IsStaging(staging)
    requires Stem(target, staging) <= Stem(other, kind)
    ensures (target == other && staging == kind) || target + Marker(staging) <= other + "-"
  {
    var p, q := target + Marker(staging), other + Marker(kind);
    StemIsDotted(target, staging);
    StemIsDotted(other, kind);
    DropDot(p, q);
    MarkerTail(target, staging);
    if |p| <= |other| + 1 {
      ShortPrefix(p, other, Marker(kind));
    } else if |p| == |q| {
      EqualPrefix(p, q);
      SameTail(target, staging, other, kind);
    } else {
      InnerDash(kind, |p| - 1 - |other|);
      MiddleOf(p, other, Marker(kind));
    }
  }

  lemma StemIsDotted(target: string, kind: TempKind)
    ensures Stem(target, kind) == "." + (target + Marker(kind))
    ensures Stem(target, kind)[1..] == target + Marker(kind)
  {
  }

  lemma ShortPrefix(p: string, other: string, m: string)
    requires p <= other + m && |p| <= |other| + 1 && |m| > 0 && m[0] == '-'
    ensures p <= other + "-"
  {
    assert p == (other + m)[..|p|] == (other + "-")[..|p|];
  }

  lemma EqualPrefix(p: string, q: string)
    requires p <= q && |p| == |q|
    ensures p == q
  {
  }

  lemma MiddleOf(p: string, other: string, m: string)
    requires p <= other + m && |other| + 1 < |p|
    ensures p[|p| - 1] == m[|p| - 1 - |other|] && p[|p| - 2] == m[|p| - 2 - |other|]
  {
  }

  lemma PrefixOfStem(target: string, staging: TempKind, other: string, kind: TempKind)
    requires target + Marker(staging) <= other + "-"
    ensures Stem(target, staging) <= Stem(other, kind)
  {
    var p, q := target + Marker(staging), other + Marker(kind);
    assert p == (other + "-")[..|p|] == q[..|p|];
    assert Stem(target, staging) == "." + p && Stem(other, kind) == "." + q;
  }

  lemma SweptIsReached(target: string, other: string, kind: TempKind, random: string)
    requires Digits(random) && Swept(target, TempName(other, kind, random))
    ensures (target == other && IsStaging(kind)) || Interferes(target, other)
  {
    var staging := if Stem(target, CertSync) <= TempName(other, kind, random) then CertSync else KeySync;
    StemEndsBefore(Stem(target, staging), other, kind, random);
    StemPrefix(target, staging, other, kind);
  }

  lemma ReachedIsSwept(target: string, other: string, kind: TempKind, random: string)
    requires Digits(random)
    requires (target == other && IsStaging(kind)) || Interferes(target, other)
    ensures Swept(target, TempName(other, kind, random))
  {
    var name := TempName(other, kind, random);
    SuffixOfSum(Stem(other, kind) + random, SUFFIX);
    assert IsStaging(kind) ==> kind.CertSync? || kind.KeySync?;
    if target == other && IsStaging(kind) {
      assert Stem(target, kind) <= name;
    } else {
      var staging := if target + "-cert-sync-" <= other + "-" then CertSync else KeySync;
      PrefixOfStem(target, staging, other, kind);
      assert Stem(target, staging) <= name;
    }
  }

  /**
    The exact reach of cleanupStaging: of all temporary files that any target
    creates, the sweep of `target` deletes its own staging files, never its own
    backups, and files of another target exactly when the names interfere.
   */
  lemma SweepReach(target: string, other: string, kind: TempKind, random: string)
    requires Digits(random)
    ensures Swept(target, TempName(other, kind, random)) <==>
            (target == other && IsStaging(kind)) || Interferes(target, other)
  {
    hide Swept;
    hide Interferes;
    hide TempName;
    if Swept(target, TempName(other, kind, random)) {
      SweptIsReached(target, other, kind, random);
    }
    if (target == other && IsStaging(kind)) || Interferes(target, other) {
      ReachedIsSwept(target, other, kind, random);
    }
  }

  /** No target interferes with itself. */
  lemma NeverInterferesWithItself(target: string)
    ensures !Interferes(target, target)
  {
  }

  lemma DigitsStop(r: string, s: string)
    requires Digits(r) && Digits(s) && r + SUFFIX == s + SUFFIX
    ensures r == s
  {
    var a, b := r + SUFFIX, s + SUFFIX;
    assert forall i | 0 <= i < |r| :: a[i] == r[i] && a[i] != '.';
    assert forall i | 0 <= i < |s| :: b[i] == s[i] && b[i] != '.';
    assert a[|r|] == '.' && b[|s|] == '.';
    assert a[..|r|] == r && b[..|s|] == s;
  }

  /** Temporary names determine the target, the kind and the random part. */
  lemma TempNameInjective(target: string, kind: TempKind, random: string,
                          target': string, kind': TempKind, random': string)
    requires Digits(random) && Digits(random')
    requires TempName(target, kind, random) == TempName(target', kind', random')
    ensures target == target' && kind == kind' && random == random'
  {
    SameStem(target, kind, random, target', kind', random');
    var stem := Stem(target, kind);
    StemIsDotted(target, kind);
    StemIsDotted(target', kind');
    SameTail(target, kind, target', kind');
    assert TempName(target, kind, random)[|stem|..] == random + SUFFIX;
    assert TempName(target', kind', random')[|stem|..] == random' + SUFFIX;
    DigitsStop(random, random');
  }

  lemma SameStem(target: string, kind: TempKind, random: string,
                 target': string, kind': TempKind, random': string)
    requires Digits(random) && Digits(random')
    requires TempName(target, kind, random) == TempName(target', kind', random')
    ensures Stem(target, kind) == Stem(target', kind')
  {
    var name := TempName(target, kind, random);
    var stem, stem' := Stem(target, kind), Stem(target', kind');
    assert stem <= name && stem' <= name;
    MarkerTail("." + target, kind);
    MarkerTail("." + target', kind');
    StemEndsBefore(stem, target', kind', random');
    StemEndsBefore(stem', target, kind, random);
  }

  /**
    Two targets whose names do not interfere own disjoint sets of names, so no
    step of one replacement can touch a file that the other one uses.
   */
  lemma FootprintsDisjoint(target: string, other: string, name: string)
    requires target != other
    requires !Interferes(target, other) && !Interferes(other, target)
    ensures !(InFootprint(target, name) && InFootprint(other, name))
  {
    if InFootprint(target, name) && InFootprint(other, name) {
      DestinationsAreDistinct(target, other);
      DestinationsAreDistinct(other, target);
      if name == CertFile(target) || name == KeyFile(target) {
        DestinationIsNotTemp(target, name);
      } else if name == CertFile(other) || name == KeyFile(other) {
        DestinationIsNotTemp(other, name);
      } else if IsBackup(target, name) {
        BackupIsPrivate(target, other, name);
      } else if IsBackup(other, name) {
        BackupIsPrivate(other, target, name);
      } else {
        BothSwept(target, other, name);
      }
    }
  }

  lemma BackupIsPrivate(target: string, other: string, name: string)
    requires target != other && !Interferes(other, target)
    requires IsBackup(target, name)
    ensures !Swept(other, name) && !IsBackup(other, name)
  {
    var kind := if IsTemp(target, CertBackup, name) then CertBackup else KeyBackup;
    var random :| Digits(random) && name == TempName(target, kind, random);
    SweepReach(other, target, kind, random);
    forall kind', random' | Digits(random')
      ensures name != TempName(other, kind', random')
    {
      if name == TempName(other, kind', random') {
        TempNameInjective(target, kind, random, other, kind', random');
      }
    }
  }

  lemma BothSwept(target: string, other: string, name: string)
    requires Swept(target, name) && Swept(other, name)
    ensures target == other || Interferes(target, other) || Interferes(other, target)
  {
    var s := if Stem(target, CertSync) <= name then CertSync else KeySync;
    var s' := if Stem(other, CertSync) <= name then CertSync else KeySync;
    if |Stem(target, s)| <= |Stem(other, s')| {
      assert Stem(target, s) == name[..|Stem(target, s)|] == Stem(other, s')[..|Stem(target, s)|];
      StemPrefix(target, s, other, s');
    } else {
      assert Stem(other, s') == name[..|Stem(other, s')|] == Stem(target, s)[..|Stem(other, s')|];
      StemPrefix(other, s', target, s);
    }
  }

  /** A kept backup of a target survives the target's own later sweeps. */
  lemma OwnBackupIsNotSwept(target: string, name: string)
    requires IsBackup(target, name)
    ensures !Swept(target, name)
  {
    var kind := if IsTemp(target, CertBackup, name) then CertBackup else KeyBackup;
    var random :| Digits(random) && name == TempName(target, kind, random);
    SweepReach(target, target, kind, random);
    NeverInterferesWithItself(target);
  }

  lemma OwnTempInFootprint(target: string, name: string)
    requires IsOwnTemp(target, name)
    ensures InFootprint(target, name)
  {
    if !IsBackup(target, name) {
      var kind := if IsTemp(target, CertSync, name) then CertSync else KeySync;
      var random :| Digits(random) && name == TempName(target, kind, random);
      SweepReach(target, target, kind, random);
    }
  }

  /** Every temporary name of a target is in its footprint. */
  lemma TempInFootprint(target: string, kind: TempKind, name: string)
    requires IsTemp(target, kind, name)
    ensures InFootprint(target, name)
  {
    OwnTempInFootprint(target, name);
  }
}
