/**
 * The release script version-bump.mjs: the patch component of the package
 * version is incremented, and the new version is stored in package.json,
 * in manifest.json and, mapped to the manifest's `minAppVersion`, in
 * versions.json.
 *
 * The files are given as the values `JSON.parse` produced from them and the
 * writes are returned in order, without their serialisation; the version
 * comes in as the value of `npm_package_version`.
 */
module VersionBump {
  import opened Wrappers
  import opened Text
  import opened Js

  // ---------------------------------------------------------------------
  // The version number
  // ---------------------------------------------------------------------

  /** A JavaScript number as `parseInt` and `++` produce it here: an integer or NaN. */
  datatype Patch = Patch(n: int) | NotANumber

  /** `parseInt(piece)`: a sign and the longest run of digits, or NaN. */
  function PatchValue(piece: string): Patch {
    match ParseInt(piece)
    case Some(n) => Patch(n)
    case None => NotANumber
  }

  /** `patchVersion++`: NaN stays NaN. */
  function Increment(p: Patch): Patch {
    match p
    case Patch(n) => Patch(n + 1)
    case NotANumber => NotANumber
  }

  /** The number as `join` writes it. */
  function PatchText(p: Patch): (r: string)
    ensures '.' !in r
  {
    match p
    case Patch(n) => NatTextHasNoDot(if n < 0 then -n else n); IntToString(n)
    case NotANumber => "NaN"
  }

  lemma NatTextHasNoDot(n: nat)
    ensures '.' !in NatToString(n)
  {
    var s := NatToString(n);
    assert forall i | 0 <= i < |s| :: IsDigit(s[i]);
  }

  /** The version the script computes: its last dot-separated piece incremented. */
  function Bumped(version: string): string {
    var parts := Split(version, '.');
    Join(parts[..|parts| - 1] + [PatchText(Increment(PatchValue(Last(parts))))], ".")
  }

  /** Splitting a join of pieces without the separator gives the pieces back. */
  lemma {:induction false} SplitJoin(parts: seq<string>, sep: char)
    requires |parts| >= 1 && forall i | 0 <= i < |parts| :: sep !in parts[i]
    ensures Split(Join(parts, [sep]), sep) == parts
    decreases |parts|
  {
    if |parts| > 1 {
      var rest := Join(parts[1..], [sep]);
      var j := Join(parts, [sep]);
      assert j == parts[0] + [sep] + rest;
      assert j[..|parts[0]|] == parts[0];
      IndexOfUnique(j, sep, |parts[0]|);
      assert j[|parts[0]| + 1..] == rest;
      SplitJoin(parts[1..], sep);
      assert parts == [parts[0]] + parts[1..];
    } else {
      assert Join(parts, [sep]) == parts[0];
    }
  }

  /**
   * The number of components is kept, every component but the last is
   * unchanged, and the last is the old one's number plus one.
   */
  lemma BumpedComponents(version: string)
    ensures var before := Split(version, '.');
            var after := Split(Bumped(version), '.');
            && |after| == |before|
            && after[..|after| - 1] == before[..|before| - 1]
            && Last(after) == PatchText(Increment(PatchValue(Last(before))))
  {
    var parts := Split(version, '.');
    var next := parts[..|parts| - 1] + [PatchText(Increment(PatchValue(Last(parts))))];
    forall i | 0 <= i < |next| ensures '.' !in next[i] {
      if i < |parts| - 1 {
        assert next[i] == parts[i];
        SplitPiecesHaveNoSeparator(version, '.', i);
      }
    }
    assert Bumped(version) == Join(next, ['.']);
    SplitJoin(next, '.');
    assert next[..|next| - 1] == parts[..|parts| - 1];
  }

  /**
   * As text: the old version up to and including its last dot, unchanged,
   * followed by the incremented patch.
   */
  lemma BumpedText(version: string)
    ensures '.' in version ==>
              Bumped(version) == BeforeLast(version, '.') + "." + PatchText(Increment(PatchValue(AfterLast(version, '.'))))
    ensures '.' !in version ==> Bumped(version) == PatchText(Increment(PatchValue(version)))
  {
    var parts := Split(version, '.');
    SplitLast(version, '.');
    var patch := PatchText(Increment(PatchValue(Last(parts))));
    if '.' in version {
      JoinAllButLast(version, '.');
      assert |parts| >= 2 by {
        var i := IndexOf(version, '.');
        assert parts == [version[..i]] + Split(version[i + 1..], '.');
      }
      JoinSnoc(parts[..|parts| - 1], patch, ".");
    } else {
      assert parts == [version];
      assert parts[..0] + [patch] == [patch];
    }
  }

  /** The last dot of `prefix + "." + suffix`, for a suffix without dots, is the one added. */
  lemma AtLastDot(prefix: string, suffix: string)
    requires '.' !in suffix
    ensures var v := prefix + "." + suffix;
            '.' in v && BeforeLast(v, '.') == prefix && AfterLast(v, '.') == suffix
  {
    var v := prefix + "." + suffix;
    assert v[|prefix|] == '.';
    assert v[|prefix| + 1..] == suffix;
    LastIndexOfUnique(v, '.', |prefix|);
    assert v[..|prefix|] == prefix;
  }

  /** A numeric patch component is incremented as a number: "1.2.9" becomes "1.2.10". */
  lemma BumpedNumber(prefix: string, n: nat)
    ensures Bumped(prefix + "." + NatToString(n)) == prefix + "." + NatToString(n + 1)
  {
    NatTextHasNoDot(n);
    AtLastDot(prefix, NatToString(n));
    BumpedText(prefix + "." + NatToString(n));
    ParseIntOfIntToString(n);
  }

  /**
   * Lines 5-9 of the script: the pieces are split off, the last one is
   * popped and parsed, incremented, pushed back and the pieces joined.
   */
  method BumpVersion(version: string) returns (target: string)
    ensures target == Bumped(version)
    ensures var before := Split(version, '.');
            var after := Split(target, '.');
            |after| == |before| && after[..|after| - 1] == before[..|before| - 1]
  {
    var versionParts := Split(version, '.');
    var patchVersion := PatchValue(versionParts[|versionParts| - 1]);
    versionParts := versionParts[..|versionParts| - 1];
    patchVersion := Increment(patchVersion);
    versionParts := versionParts + [PatchText(patchVersion)];
    target := Join(versionParts, ".");
    BumpedComponents(version);
  }

  // ---------------------------------------------------------------------
  // The three files
  // ---------------------------------------------------------------------

  /**
   * `v[key] = val` in the script's strict mode: an object gains or replaces
   * the member; an array takes it as a named property, which
   * `JSON.stringify` does not write; null and the other primitives throw.
   */
  function Assign(v: Value, key: string, val: Value): (r: Option<Value>)
    ensures r.Some? <==> v.Obj? || v.Arr?
    ensures v.Arr? ==> r == Some(v)
  {
    match v
    case Obj(ms) => Some(Obj(Put(ms, key, val)))
    case Arr(_) => Some(v)
    case _ => None
  }

  /** An object's assigned member reads back; every other member is unchanged. */
  lemma AssignObject(v: Value, key: string, val: Value, other: string)
    requires v.Obj?
    ensures Prop(Assign(v, key, val).value, key) == val
    ensures other != key ==> Prop(Assign(v, key, val).value, other) == Prop(v, other)
  {
    LookupPut(v.members, key, val, other);
  }

  /** A file written back, with the value serialised into it. */
  datatype Write = Write(file: string, content: Value)

  /**
   * Lines 3-25 of the script: the new version, then package.json, then
   * manifest.json, then versions.json written in turn. An assignment that
   * throws ends the script, after the writes already made.
   */
  method BumpFiles(version: string, packageJson: Value, manifest: Value, versions: Value)
    returns (target: string, writes: seq<Write>)
    ensures target == Bumped(version)
    ensures |writes| <= 3
    ensures |writes| >= 1 <==> Assign(packageJson, "version", Str(target)).Some?
    ensures |writes| >= 1 ==> writes[0] == Write("package.json", Assign(packageJson, "version", Str(target)).value)
    ensures |writes| >= 2 <==> |writes| >= 1 && Assign(manifest, "version", Str(target)).Some?
    ensures |writes| >= 2 ==> writes[1] == Write("manifest.json", Assign(manifest, "version", Str(target)).value)
    ensures |writes| == 3 <==> |writes| >= 2 && Assign(versions, target, Prop(manifest, "minAppVersion")).Some?
    ensures |writes| == 3 ==> writes[2] == Write("versions.json", Assign(versions, target, Prop(manifest, "minAppVersion")).value)
  {
    writes := [];
    target := BumpVersion(version);

    var packageOut := Assign(packageJson, "version", Str(target));
    if packageOut.None? {
      return;
    }
    writes := writes + [Write("package.json", packageOut.value)];

    if manifest.Nullish() {
      return;
    }
    var minAppVersion := Prop(manifest, "minAppVersion");
    var manifestOut := Assign(manifest, "version", Str(target));
    if manifestOut.None? {
      return;
    }
    writes := writes + [Write("manifest.json", manifestOut.value)];

    var versionsOut := Assign(versions, target, minAppVersion);
    if versionsOut.None? {
      return;
    }
    writes := writes + [Write("versions.json", versionsOut.value)];
  }

  /**
   * When all three files hold objects, package.json and manifest.json both
   * get the new version, and versions.json gains the new version mapped to
   * the manifest's `minAppVersion` with every other entry unchanged and in
   * its place.
   */
  lemma BumpedFiles(version: string, packageJson: Value, manifest: Value, versions: Value, other: string)
    requires packageJson.Obj? && manifest.Obj? && versions.Obj?
    ensures var target := Bumped(version);
            var pkg := Assign(packageJson, "version", Str(target)).value;
            var man := Assign(manifest, "version", Str(target)).value;
            var vs := Assign(versions, target, Prop(manifest, "minAppVersion")).value;
            && Prop(pkg, "version") == Prop(man, "version") == Str(target)
            && Prop(man, "minAppVersion") == Prop(manifest, "minAppVersion")
            && Prop(vs, target) == Prop(manifest, "minAppVersion")
            && (other != target ==> Prop(vs, other) == Prop(versions, other))
            && Keys(vs.members) == if HasKey(versions.members, target) then Keys(versions.members)
                                   else Keys(versions.members) + [target]
  {
    var target := Bumped(version);
    AssignObject(packageJson, "version", Str(target), "version");
    AssignObject(manifest, "version", Str(target), "minAppVersion");
    AssignObject(versions, target, Prop(manifest, "minAppVersion"), other);
    PutKeys(versions.members, target, Prop(manifest, "minAppVersion"));
  }
}
