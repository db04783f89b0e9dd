/** Sealing a compiled generation and exporting it (`compile_package`, `relative` and
    `export_generation` of `scripts/prefix/base-promt-compiler.py`). */
module GenerationExport {
  import opened Wrappers
  import opened Text
  import opened GenerationStore
  import N = Names

  // --- Base64, section 4 of RFC 4648 -------------------------------------------------------------

  type sextet = x: int | 0 <= x < 64

  function Digit(x: sextet): char {
    if x < 26 then 'A' + x as char
    else if x < 52 then 'a' + (x - 26) as char
    else if x < 62 then '0' + (x - 52) as char
    else if x == 62 then '+' else '/'
  }

  function Value(c: char): Option<sextet> {
    if 'A' <= c <= 'Z' then Some(c as int - 'A' as int)
    else if 'a' <= c <= 'z' then Some(c as int - 'a' as int + 26)
    else if '0' <= c <= '9' then Some(c as int - '0' as int + 52)
    else if c == '+' then Some(62)
    else if c == '/' then Some(63)
    else None
  }

  lemma DigitValue(x: sextet)
    ensures Value(Digit(x)) == Some(x) && Digit(x) != '='
  {
  }

  // The four sextets of three bytes, and back.

  function Sextet0(a: byte): sextet { a / 4 }
  function Sextet1(a: byte, b: byte): sextet { a % 4 * 16 + b / 16 }
  function Sextet2(b: byte, c: byte): sextet { b % 16 * 4 + c / 64 }
  function Sextet3(c: byte): sextet { c % 64 }

  function Byte0(w: sextet, x: sextet): byte { w * 4 + x / 16 }
  function Byte1(x: sextet, y: sextet): byte { x % 16 * 16 + y / 4 }
  function Byte2(y: sextet, z: sextet): byte { y % 4 * 64 + z }

  lemma Regrouped(a: byte, b: byte, c: byte)
    ensures Byte0(Sextet0(a), Sextet1(a, b)) == a
    ensures Byte1(Sextet1(a, b), Sextet2(b, c)) == b
    ensures Byte2(Sextet2(b, c), Sextet3(c)) == c
  {
  }

  function Encode(b: Bytes): string {
    if b == [] then ""
    else if |b| == 1 then [Digit(Sextet0(b[0])), Digit(Sextet1(b[0], 0)), '=', '=']
    else if |b| == 2 then [Digit(Sextet0(b[0])), Digit(Sextet1(b[0], b[1])), Digit(Sextet2(b[1], 0)), '=']
    else [Digit(Sextet0(b[0])), Digit(Sextet1(b[0], b[1])), Digit(Sextet2(b[1], b[2])), Digit(Sextet3(b[2]))] + Encode(b[3..])
  }

  /** A decoder written from the alphabet and the padding rule. */
  function Decode(s: string): Option<Bytes> {
    if s == "" then Some([])
    else if |s| < 4 || Value(s[0]).None? || Value(s[1]).None? then None
    else
      var w, x := Value(s[0]).value, Value(s[1]).value;
      if |s| == 4 && s[2] == '=' && s[3] == '=' then (if x % 16 == 0 then Some([Byte0(w, x)]) else None)
      else if Value(s[2]).None? then None
      else
        var y := Value(s[2]).value;
        if |s| == 4 && s[3] == '=' then (if y % 4 == 0 then Some([Byte0(w, x), Byte1(x, y)]) else None)
        else if Value(s[3]).None? || Decode(s[4..]).None? then None
        else Some([Byte0(w, x), Byte1(x, y), Byte2(y, Value(s[3]).value)] + Decode(s[4..]).value)
  }

  /** Decoding undoes encoding, whatever the padding. */
  lemma {:induction false} DecodeEncode(b: Bytes)
    ensures Decode(Encode(b)) == Some(b)
  {
    if |b| == 1 {
      DecodeOne(b, Encode(b));
    } else if |b| == 2 {
      DecodeTwo(b, Encode(b));
    } else if |b| > 2 {
      DecodeEncode(b[3..]);
      DecodeThree(b, Encode(b));
    }
  }

  lemma DecodeOne(b: Bytes, s: string)
    requires |b| == 1 && |s| == 4 && s[0] == Digit(Sextet0(b[0])) && s[1] == Digit(Sextet1(b[0], 0)) && s[2] == s[3] == '='
    ensures Decode(s) == Some(b)
  {
    var w, x := Sextet0(b[0]), Sextet1(b[0], 0);
    assert x % 16 == 0 by {
      Padded(b[0]);
    }
    DecodePadded1(s, w, x);
    assert Byte0(w, x) == b[0] by {
      Regrouped(b[0], 0, 0);
    }
    assert b == [Byte0(w, x)];
  }

  lemma DecodeTwo(b: Bytes, s: string)
    requires |b| == 2 && |s| == 4 && s[0] == Digit(Sextet0(b[0])) && s[1] == Digit(Sextet1(b[0], b[1]))
    requires s[2] == Digit(Sextet2(b[1], 0)) && s[3] == '='
    ensures Decode(s) == Some(b)
  {
    Regrouped(b[0], b[1], 0);
    Padded(b[1]);
    DecodePadded2(s, Sextet0(b[0]), Sextet1(b[0], b[1]), Sextet2(b[1], 0));
    assert b == [b[0], b[1]];
  }

  lemma Padded(a: byte)
    ensures Sextet1(a, 0) % 16 == 0 && Sextet2(a, 0) % 4 == 0
  {
  }

  lemma DecodePadded1(s: string, w: sextet, x: sextet)
    requires |s| == 4 && s[0] == Digit(w) && s[1] == Digit(x) && s[2] == s[3] == '=' && x % 16 == 0
    ensures Decode(s) == Some([Byte0(w, x)])
  {
    DigitValue(w);
    DigitValue(x);
  }

  lemma DecodePadded2(s: string, w: sextet, x: sextet, y: sextet)
    requires |s| == 4 && s[0] == Digit(w) && s[1] == Digit(x) && s[2] == Digit(y) && s[3] == '=' && y % 4 == 0
    ensures Decode(s) == Some([Byte0(w, x), Byte1(x, y)])
  {
    DigitValue(w);
    DigitValue(x);
    DigitValue(y);
  }

  lemma DecodeThree(b: Bytes, s: string)
    requires |b| > 2 && s == Encode(b) && Decode(Encode(b[3..])) == Some(b[3..])
    ensures Decode(s) == Some(b)
  {
    assert s[4..] == Encode(b[3..]);
    Regrouped(b[0], b[1], b[2]);
    DecodeGroup(s, Sextet0(b[0]), Sextet1(b[0], b[1]), Sextet2(b[1], b[2]), Sextet3(b[2]));
    assert b == [b[0], b[1], b[2]] + b[3..];
  }

  lemma DecodeGroup(s: string, w: sextet, x: sextet, y: sextet, z: sextet)
    requires |s| >= 4 && s[0] == Digit(w) && s[1] == Digit(x) && s[2] == Digit(y) && s[3] == Digit(z)
    requires Decode(s[4..]).Some?
    ensures Decode(s) == Some([Byte0(w, x), Byte1(x, y), Byte2(y, z)] + Decode(s[4..]).value)
  {
    DigitValue(w);
    DigitValue(x);
    DigitValue(y);
    DigitValue(z);
  }

  // --- Names ---------------------------------------------------------------------------------------

  /** The parts of a `PurePosixPath`: empty and `.` components disappear. */
  function Parts(components: seq<string>): seq<string> {
    if components == [] then []
    else if components[0] == "" || components[0] == "." then Parts(components[1..])
    else [components[0]] + Parts(components[1..])
  }

  predicate Printable(c: char) {
    var n := c as int;
    32 <= n && !(127 <= n <= 159) && n != 8232 && n != 8233 && c != '\\'
  }

  predicate Hidden(part: string) {
    part != "" && part[0] == '.'
  }

  predicate PrintableName(name: string) {
    forall k | 0 <= k < |name| :: Printable(name[k])
  }

  /** The tests of `relative`, in its order. */
  predicate Relative(name: string) {
    RelativeParts(name, Parts(Split(name)))
  }

  predicate RelativeParts(name: string, parts: seq<string>) {
    && PrintableName(name)
    && !(name != "" && name[0] == '/')
    && (forall k | 0 <= k < |parts| :: parts[k] != "..")
    && (if parts == [] then "." else Join(parts)) == name
    && parts != []
    && (forall k | 0 <= k < |parts| :: !Hidden(parts[k]))
    && parts[|parts| - 1] != "LOCAL_TEST_ENV.md"
  }

  /** What they amount to: no component is empty or hidden, and the last is not the local file. */
  predicate PlainName(name: string) {
    PrintableName(name) && PlainComponents(Split(name))
  }

  predicate PlainComponents(components: seq<string>) {
    && components != []
    && (forall k | 0 <= k < |components| :: components[k] != "" && !Hidden(components[k]))
    && components[|components| - 1] != "LOCAL_TEST_ENV.md"
  }

  lemma {:induction false} PartsShorter(cs: seq<string>)
    ensures |Join(Parts(cs))| <= |Join(cs)|
    ensures Parts(cs) != [] && Parts(cs) != cs ==> |Join(Parts(cs))| < |Join(cs)|
  {
    if cs != [] {
      PartsShorter(cs[1..]);
      if cs[0] == "" || cs[0] == "." {
        if Parts(cs) != [] {
          assert cs[1..] != [];
        }
      } else {
        assert Parts(cs)[1..] == Parts(cs[1..]);
        if Parts(cs[1..]) == [] && cs[1..] != [] {
          assert Join(cs) == cs[0] + "/" + Join(cs[1..]);
        }
      }
    }
  }

  lemma {:induction false} PartsSame(cs: seq<string>)
    ensures Parts(cs) == cs <==> forall k | 0 <= k < |cs| :: cs[k] != "" && cs[k] != "."
  {
    if cs != [] {
      PartsSame(cs[1..]);
      PartsLength(cs[1..]);
      if Parts(cs) == cs {
        assert Parts(cs)[1..] == cs[1..];
      }
    }
  }

  lemma {:induction false} PartsLength(cs: seq<string>)
    ensures |Parts(cs)| <= |cs|
  {
    if cs != [] {
      PartsLength(cs[1..]);
    }
  }

  lemma ComponentsExactly(name: string, cs: seq<string>)
    requires cs != [] && Join(cs) == name && PrintableName(name)
    requires name != "" && name[0] == '/' ==> cs[0] == ""
    ensures RelativeParts(name, Parts(cs)) <==> PlainComponents(cs)
  {
    PartsShorter(cs);
    PartsSame(cs);
  }

  lemma OpensAbsolute(name: string)
    requires name != "" && name[0] == '/'
    ensures Split(name)[0] == ""
  {
  }

  /** `relative` accepts exactly the plain names. */
  lemma RelativeExactly(name: string)
    ensures Relative(name) <==> PlainName(name)
  {
    JoinSplit(name);
    if name != "" && name[0] == '/' {
      OpensAbsolute(name);
    }
    if PrintableName(name) {
      ComponentsExactly(name, Split(name));
    }
  }

  // --- Receipts ------------------------------------------------------------------------------------

  datatype Identity = Identity(profile: string, compiler: string, files: map<string, string>, geometry: string)

  /** The receipt adds to the identity its digest and descriptive fields. */
  datatype Receipt = Receipt(identity: Identity, generation: string, activationEligible: bool, description: string)

  datatype Package = Package(profile: string, artifacts: map<string, string>)

  /** Outside the model: SHA-256, canonical JSON, and the strict JSON reader. */
  datatype Codec = Codec(
    sha: Bytes -> string,
    identity: Identity -> Bytes,
    receipt: Receipt -> Bytes,
    readReceipt: Bytes -> Option<Receipt>,
    package: Package -> Bytes,
    readPackage: Bytes -> Option<Package>)

  /** What is asked of them: digests and canonical forms tell their arguments apart, and reading
      undoes writing. */
  ghost predicate Lawful(c: Codec) {
    && (forall a, b :: c.sha(a) == c.sha(b) ==> a == b)
    && (forall a, b :: c.identity(a) == c.identity(b) ==> a == b)
    && (forall r :: c.readReceipt(c.receipt(r)) == Some(r))
    && (forall p :: c.readPackage(c.package(p)) == Some(p))
  }

  const MANIFEST := "manifest.json"
  const CAPACITY: nat := 64 * 1024 * 1024

  predicate SupportedProfile(profile: string) {
    profile == "base-prompt" || profile == "prefix-maker"
  }

  function Digests(c: Codec, files: Files): map<string, string> {
    map n | n in files :: c.sha(files[n])
  }

  /** The tail of `compile_package`: the generation is the digest of what it contains, and the receipt
      joins the payloads. */
  function Seal(c: Codec, profile: string, compiler: string, geometry: string, description: string, payloads: Files): (r: (string, Files)) {
    var identity := Identity(profile, compiler, Digests(c, payloads), geometry);
    var generation := c.sha(c.identity(identity));
    (generation, payloads[MANIFEST := c.receipt(Receipt(identity, generation, false, description))])
  }

  /** One generation name, one content: sealed payloads of the same generation agree on every file
      but the receipt. */
  lemma SameGeneration(c: Codec, p1: string, k1: string, g1: string, d1: string, f1: Files, p2: string, k2: string, g2: string, d2: string, f2: Files)
    requires Lawful(c) && Seal(c, p1, k1, g1, d1, f1).0 == Seal(c, p2, k2, g2, d2, f2).0
    ensures f1 == f2 && p1 == p2
    ensures d1 == d2 ==> Seal(c, p1, k1, g1, d1, f1) == Seal(c, p2, k2, g2, d2, f2)
  {
    var i1, i2 := Identity(p1, k1, Digests(c, f1), g1), Identity(p2, k2, Digests(c, f2), g2);
    assert c.identity(i1) == c.identity(i2);
    assert i1 == i2;
    SameDigests(c, f1, f2);
  }

  lemma SameDigests(c: Codec, f1: Files, f2: Files)
    requires Lawful(c) && Digests(c, f1) == Digests(c, f2)
    ensures f1 == f2
  {
    assert f1.Keys == Digests(c, f1).Keys == f2.Keys;
    forall n | n in f1
      ensures f1[n] == f2[n]
    {
      assert Digests(c, f1)[n] == Digests(c, f2)[n];
    }
  }

  // --- Export --------------------------------------------------------------------------------------

  function Artifacts(files: Files): map<string, string> {
    map n | n in files :: Encode(files[n])
  }

  predicate Intact(c: Codec, files: Files, receipt: Receipt, n: string)
    requires n in files
  {
    Relative(n) && (n != MANIFEST ==> n in receipt.identity.files && c.sha(files[n]) == receipt.identity.files[n])
  }

  /** The directory is what its own receipt says, file by file. */
  ghost predicate Exportable(c: Codec, files: Files) {
    && MANIFEST in files && c.readReceipt(files[MANIFEST]).Some?
    && var receipt := c.readReceipt(files[MANIFEST]).value;
    && SupportedProfile(receipt.identity.profile) && !receipt.activationEligible
    && c.sha(c.identity(receipt.identity)) == receipt.generation
    && files.Keys == receipt.identity.files.Keys + {MANIFEST}
    && forall n | n in files :: Intact(c, files, receipt, n)
  }

  ghost function Exported(c: Codec, files: Files): Bytes
    requires MANIFEST in files && c.readReceipt(files[MANIFEST]).Some?
  {
    c.package(Package(c.readReceipt(files[MANIFEST]).value.identity.profile, Artifacts(files)))
  }

  /** `export_generation` on a directory of regular files. */
  method Export(c: Codec, files: Files) returns (r: Result<Bytes>)
    ensures r.Ok? <==> Exportable(c, files) && |Exported(c, files)| <= CAPACITY
    ensures r.Ok? ==> r.value == Exported(c, files)
  {
    if MANIFEST !in files || c.readReceipt(files[MANIFEST]).None? {
      return Raised;
    }
    var receipt := c.readReceipt(files[MANIFEST]).value;
    if !SupportedProfile(receipt.identity.profile) || receipt.activationEligible {
      return Raised;
    }
    if c.sha(c.identity(receipt.identity)) != receipt.generation {
      return Raised;
    }
    var expected := receipt.identity.files.Keys + {MANIFEST};
    if files.Keys != expected {
      return Raised;
    }
    var intact := (n: string) => n in files && Intact(c, files, receipt, n);
    var collected := Collect(files, intact);
    assert collected.Ok? <==> forall n | n in files :: intact(n);
    assert forall n | n in files :: intact(n) <==> Intact(c, files, receipt, n);
    if collected.Raised? {
      return Raised;
    }
    var result := c.package(Package(receipt.identity.profile, collected.value));
    if |result| > CAPACITY {
      return Raised;
    }
    r := Ok(result);
  }

  /** The loop over the sorted names, for the test of one file. */
  method Collect(files: Files, intact: string -> bool) returns (r: Result<map<string, string>>)
    ensures r.Ok? <==> forall n | n in files :: intact(n)
    ensures r.Ok? ==> r.value == Artifacts(files)
  {
    var names := N.Listing(files.Keys);
    ListedAll(files, names);
    var artifacts: map<string, string> := map[];
    for i := 0 to |names|
      invariant Collected(files, intact, names[..i], artifacts)
    {
      if !intact(names[i]) {
        return Raised;
      }
      CollectedMore(files, intact, names, i, artifacts);
      artifacts := artifacts[names[i] := Encode(files[names[i]])];
    }
    assert names[..|names|] == names;
    CollectedAll(files, intact, names, artifacts);
    r := Ok(artifacts);
  }

  ghost predicate Collected(files: Files, intact: string -> bool, names: seq<string>, artifacts: map<string, string>) {
    && (forall n | n in names :: n in artifacts)
    && (forall n | n in artifacts :: n in files && artifacts[n] == Encode(files[n]) && intact(n))
  }

  lemma CollectedMore(files: Files, intact: string -> bool, names: seq<string>, i: nat, artifacts: map<string, string>)
    requires i < |names| && names[i] in files && intact(names[i]) && Collected(files, intact, names[..i], artifacts)
    ensures Collected(files, intact, names[..i + 1], artifacts[names[i] := Encode(files[names[i]])])
  {
    assert names[..i + 1] == names[..i] + [names[i]];
  }

  lemma ListedAll(files: Files, names: seq<string>)
    requires N.Elements(names) == files.Keys
    ensures forall k | 0 <= k < |names| :: names[k] in files
  {
    forall k | 0 <= k < |names|
      ensures names[k] in files
    {
      assert names[k] in N.Elements(names);
    }
  }

  lemma CollectedAll(files: Files, intact: string -> bool, names: seq<string>, artifacts: map<string, string>)
    requires N.Elements(names) == files.Keys && Collected(files, intact, names, artifacts)
    ensures artifacts == Artifacts(files) && forall n | n in files :: intact(n)
  {
    forall n | n in files
      ensures n in artifacts
    {
      assert n in N.Elements(names);
    }
    assert artifacts.Keys == files.Keys;
  }

  /** The storage side: the package read back and every artifact of it decoded. */
  ghost predicate Restores(c: Codec, exported: Bytes, files: Files) {
    && c.readPackage(exported).Some?
    && DecodesTo(c.readPackage(exported).value.artifacts, files)
  }

  ghost predicate DecodesTo(artifacts: map<string, string>, files: Files) {
    artifacts.Keys == files.Keys && forall n | n in files :: Decode(artifacts[n]) == Some(files[n])
  }

  lemma ArtifactsDecode(files: Files)
    ensures DecodesTo(Artifacts(files), files)
  {
    forall n | n in files
      ensures Decode(Artifacts(files)[n]) == Some(files[n])
    {
      DecodeEncode(files[n]);
    }
  }

  lemma DecodesOnce(artifacts: map<string, string>, a: Files, b: Files)
    requires DecodesTo(artifacts, a) && DecodesTo(artifacts, b)
    ensures a == b
  {
    assert forall n | n in a :: Some(a[n]) == Some(b[n]);
  }

  lemma PackageRead(c: Codec, p: Package)
    requires Lawful(c)
    ensures c.readPackage(c.package(p)) == Some(p)
  {
  }

  /** Exported bytes restore the files they were made from, and no others. */
  lemma ExportRestores(c: Codec, files: Files, other: Files)
    requires Lawful(c) && MANIFEST in files && c.readReceipt(files[MANIFEST]).Some?
    ensures Restores(c, Exported(c, files), other) <==> other == files
  {
    PackageRead(c, Package(c.readReceipt(files[MANIFEST]).value.identity.profile, Artifacts(files)));
    ArtifactsDecode(files);
    if Restores(c, Exported(c, files), other) {
      DecodesOnce(Artifacts(files), files, other);
    }
  }

  /** A sealed generation is always exportable; only its size can stop it. */
  lemma SealedExportable(c: Codec, profile: string, compiler: string, geometry: string, description: string, payloads: Files)
    requires Lawful(c) && SupportedProfile(profile) && MANIFEST !in payloads
    requires forall n | n in payloads :: PlainName(n)
    ensures Exportable(c, Seal(c, profile, compiler, geometry, description, payloads).1)
  {
    var (generation, files) := Seal(c, profile, compiler, geometry, description, payloads);
    var receipt := Receipt(Identity(profile, compiler, Digests(c, payloads), geometry), generation, false, description);
    assert c.readReceipt(c.receipt(receipt)) == Some(receipt);
    assert files[MANIFEST] == c.receipt(receipt);
    assert files.Keys == payloads.Keys + {MANIFEST};
    assert Digests(c, payloads).Keys == payloads.Keys;
    forall n | n in files
      ensures Intact(c, files, receipt, n)
    {
      RelativeExactly(n);
      if n == MANIFEST {
        ManifestPlain();
      }
    }
  }

  predicate Segment(s: string) {
    s != "" && s[0] != '.' && forall k | 0 <= k < |s| :: s[k] != '/' && Printable(s[k])
  }

  lemma SegmentPlain(s: string)
    requires Segment(s) && s != "LOCAL_TEST_ENV.md"
    ensures PlainName(s)
  {
    SplitPlain(s);
  }

  lemma TwoSegmentsPlain(a: string, b: string)
    requires Segment(a) && Segment(b) && b != "LOCAL_TEST_ENV.md"
    ensures PlainName(a + "/" + b)
  {
    var s := a + "/" + b;
    SplitPart(a, b);
    SplitPlain(b);
    assert [a] + [b] == [a, b];
    assert forall k | 0 <= k < |s| :: s[k] == if k < |a| then a[k] else if k == |a| then '/' else b[k - |a| - 1];
  }

  lemma ManifestPlain()
    ensures PlainName(MANIFEST)
  {
    SegmentPlain(MANIFEST);
  }

  predicate LowerCase(c: char) {
    'a' <= c <= 'z' || '0' <= c <= '9' || c == '_' || c == '.'
  }

  predicate LowerSegment(s: string) {
    s != "" && s[0] != '.' && forall k | 0 <= k < |s| :: LowerCase(s[k])
  }

  /** The shape of every name `compile_package` gives a payload: `context.md`, `compiler/entry.py`,
      `raw/` and a digest, and so on. */
  ghost predicate CompiledName(n: string) {
    LowerSegment(n) || exists a, b :: LowerSegment(a) && LowerSegment(b) && n == a + "/" + b
  }

  lemma CompiledPlain(n: string)
    requires CompiledName(n)
    ensures PlainName(n)
  {
    var local := "LOCAL_TEST_ENV.md";
    assert !LowerCase(local[0]);
    if LowerSegment(n) {
      SegmentPlain(n);
    } else {
      var a, b :| LowerSegment(a) && LowerSegment(b) && n == a + "/" + b;
      TwoSegmentsPlain(a, b);
    }
  }

  /** Publication, storage and export together: any visible generation whose request was sealed by the
      compiler is exportable under its own name, and what is exported restores exactly its files. */
  lemma PublishedExports(c: Codec, states: seq<State>, actions: seq<Action>, i: nat, g: string)
    requires Lawful(c) && IsRun(states, actions) && i < |states| && g in states[i].visible
    requires forall k | 0 <= k < |actions| && actions[k].Begin? :: Sealed(c, actions[k].generation, actions[k].payloads)
    ensures Exportable(c, states[i].visible[g])
    ensures c.readReceipt(states[i].visible[g][MANIFEST]).value.generation == g
    ensures Restores(c, Exported(c, states[i].visible[g]), states[i].visible[g])
  {
    var k := VisibleComplete(states, actions, i, g);
    assert Sealed(c, actions[k].generation, actions[k].payloads);
    var profile, compiler, geometry, description, payloads :|
      SealedAs(c, actions[k].generation, actions[k].payloads, profile, compiler, geometry, description, payloads);
    forall n | n in payloads
      ensures PlainName(n)
    {
      CompiledPlain(n);
    }
    SealedExportable(c, profile, compiler, geometry, description, payloads);
    ExportRestores(c, states[i].visible[g], states[i].visible[g]);
  }

  /** An export of a visible generation, early or late in the run: it fails only for its size, and its bytes
      restore the generation as it is at any later time. */
  method ExportVisible(c: Codec, ghost states: seq<State>, ghost actions: seq<Action>, ghost i: nat, ghost j: nat, g: string, files: Files)
      returns (r: Result<Bytes>)
    requires Lawful(c) && IsRun(states, actions) && i <= j < |states| && g in states[i].visible && files == states[i].visible[g]
    requires forall k | 0 <= k < |actions| && actions[k].Begin? :: Sealed(c, actions[k].generation, actions[k].payloads)
    ensures Exportable(c, files) && (r.Ok? <==> |Exported(c, files)| <= CAPACITY)
    ensures r.Ok? ==> g in states[j].visible && Restores(c, r.value, states[j].visible[g])
  {
    PublishedExports(c, states, actions, i, g);
    Immutable(states, actions, i, j, g);
    r := Export(c, files);
  }

  ghost predicate SealedAs(c: Codec, g: string, files: Files, profile: string, compiler: string, geometry: string, description: string, payloads: Files) {
    && SupportedProfile(profile) && MANIFEST !in payloads && (forall n | n in payloads :: CompiledName(n))
    && (g, files) == Seal(c, profile, compiler, geometry, description, payloads)
  }

  ghost predicate Sealed(c: Codec, g: string, files: Files) {
    exists profile, compiler, geometry, description, payloads ::
      SealedAs(c, g, files, profile, compiler, geometry, description, payloads)
  }
}
