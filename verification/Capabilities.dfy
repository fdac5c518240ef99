/** The capability registry: registration and reactivation, retirement, discovery, and scores that
    only verified outcomes move. */
module Capabilities {
  import opened Schemas
  import opened Sorting
  import opened Rewards

  /** Versions arrive parsed; the suffix is whatever follows the numeric part. */
  datatype Version = Version(major: nat, minor: nat, patch: nat, suffix: string)

  /** What may follow the numeric part: nothing, or a sign and something more on the same line; one final
      line break goes unnoticed. */
  predicate SuffixOk(s: string) {
    var t := if s != "" && s[|s| - 1] == '\n' then s[..|s| - 1] else s;
    t == "" || (|t| >= 2 && (t[0] == '-' || t[0] == '+') && '\n' !in t)
  }

  /** A text in three pieces: its first character, what follows, and what ends it. */
  predicate InPieces(s: string, sign: char, more: string, end: string) { s == [sign] + more + end }

  /** The suffixes of the version pattern, spelled out: none or some, and at most one line break after it. */
  lemma {:induction false} SuffixSays(s: string)
    ensures SuffixOk(s) <==>
            || s == "" || s == "\n"
            || exists sign, more, end ::
                 && InPieces(s, sign, more, end) && (sign == '-' || sign == '+')
                 && more != "" && '\n' !in more && (end == "" || end == "\n")
  {
    if SuffixOk(s) && s != "" && s != "\n" {
      var n := if s[|s| - 1] == '\n' then |s| - 1 else |s|;
      assert InPieces(s, s[0], s[1..n], s[n..]);
      assert s[..n] == [s[0]] + s[1..n];
    }
    forall sign, more, end
      | InPieces(s, sign, more, end) && (sign == '-' || sign == '+') && more != "" && '\n' !in more
        && (end == "" || end == "\n")
      ensures SuffixOk(s)
    {
      PiecesAreOk(s, sign, more, end);
    }
  }

  lemma PiecesAreOk(s: string, sign: char, more: string, end: string)
    requires InPieces(s, sign, more, end) && (sign == '-' || sign == '+') && more != "" && '\n' !in more
    requires end == "" || end == "\n"
    ensures SuffixOk(s)
  {
    var t := [sign] + more;
    assert '\n' !in t && t[|t| - 1] == more[|more| - 1];
    if end == "" {
      assert s == t && s[|s| - 1] == t[|t| - 1];
    } else {
      assert s[|s| - 1] == '\n' && s[..|s| - 1] == t;
    }
  }

  datatype CapabilityId = CapabilityId(name: string, version: Version)

  function Decimal(n: nat): string {
    if n < 10 then [('0' as int + n) as char] else Decimal(n / 10) + [('0' as int + n % 10) as char]
  }

  /** The written form of an id: name@major.minor.patch and the suffix. */
  function VersionText(v: Version): string {
    Decimal(v.major) + "." + Decimal(v.minor) + "." + Decimal(v.patch) + v.suffix
  }

  function Text(id: CapabilityId): string { id.name + "@" + VersionText(id.version) }

  datatype Manifest = Manifest(
    id: CapabilityId,
    capabilityType: string,
    permissions: set<string>,
    cost: real,
    latency: real,
    reliability: real,
    trust: real,
    evidenceScore: real,
    confidence: real)

  datatype RegistrationStatus = ACTIVE | RETIRED

  datatype Health = UNKNOWN | HEALTHY | UNHEALTHY

  datatype Record = Record(manifest: Manifest, status: RegistrationStatus, health: Health)

  datatype RegistryError = ManifestRejected | AlreadyRegistered | UnknownCapability | Unverified

  /** The manifest's own validation, apart from the format of permissions. */
  predicate WellFormed(m: Manifest) {
    && !Blank(m.id.name) && !Blank(m.capabilityType) && SuffixOk(m.id.version.suffix)
    && m.cost >= 0.0 && m.latency >= 0.0
    && 0.0 <= m.reliability <= 1.0 && 0.0 <= m.trust <= 1.0
    && 0.0 <= m.evidenceScore <= 1.0 && 0.0 <= m.confidence <= 1.0
  }

  // -- written ids ------------------------------------------------------------------------------

  predicate Digit(c: char) { '0' <= c <= '9' }

  lemma {:induction false} DecimalDigits(n: nat)
    ensures Decimal(n) != "" && forall i :: 0 <= i < |Decimal(n)| ==> Digit(Decimal(n)[i])
    decreases n
  {
    if n >= 10 { DecimalDigits(n / 10); }
  }

  lemma {:induction false} DecimalInjective(a: nat, b: nat)
    requires Decimal(a) == Decimal(b)
    ensures a == b
    decreases a
  {
    DecimalDigits(a / 10);
    DecimalDigits(b / 10);
    var s, n := Decimal(a), |Decimal(a)|;
    if a >= 10 && b >= 10 {
      assert s[..n - 1] == Decimal(a / 10) && s[..n - 1] == Decimal(b / 10);
      DecimalInjective(a / 10, b / 10);
      assert s[n - 1] == ('0' as int + a % 10) as char && s[n - 1] == ('0' as int + b % 10) as char;
    }
  }

  function LeadingDigits(s: string): nat {
    if s == "" || !Digit(s[0]) then 0 else LeadingDigits(s[1..]) + 1
  }

  lemma {:induction false} LeadingOf(d: string, x: string)
    requires (forall i :: 0 <= i < |d| ==> Digit(d[i])) && (x == "" || !Digit(x[0]))
    ensures LeadingDigits(d + x) == |d|
    decreases |d|
  {
    if d == "" {
      assert d + x == x;
    } else {
      assert (d + x)[1..] == d[1..] + x;
      LeadingOf(d[1..], x);
    }
  }

  /** A number is read off a text as far as its digits go. */
  lemma DecimalPrefix(a: nat, x: string, b: nat, y: string)
    requires Decimal(a) + x == Decimal(b) + y
    requires (x == "" || !Digit(x[0])) && (y == "" || !Digit(y[0]))
    ensures a == b && x == y
  {
    hide Decimal, LeadingDigits;
    DecimalDigits(a);
    DecimalDigits(b);
    LeadingOf(Decimal(a), x);
    LeadingOf(Decimal(b), y);
    var s, n := Decimal(a) + x, |Decimal(a)|;
    assert s[..n] == Decimal(a) && s[..n] == Decimal(b) && s[n..] == x && s[n..] == y;
    DecimalInjective(a, b);
  }

  /** The same for a number that is followed by a dot. */
  lemma DottedPrefix(a: nat, x: string, b: nat, y: string)
    requires Decimal(a) + ("." + x) == Decimal(b) + ("." + y)
    ensures a == b && x == y
  {
    hide Decimal;
    DecimalPrefix(a, "." + x, b, "." + y);
    assert x == ("." + x)[1..] && y == ("." + y)[1..];
  }

  function PatchText(v: Version): string { Decimal(v.patch) + v.suffix }

  function MinorText(v: Version): string { Decimal(v.minor) + ("." + PatchText(v)) }

  lemma VersionTextParts(v: Version)
    ensures VersionText(v) == Decimal(v.major) + ("." + MinorText(v))
  {
    hide Decimal;
  }

  /** Valid versions are written differently. */
  lemma VersionTextInjective(v: Version, w: Version)
    requires SuffixOk(v.suffix) && SuffixOk(w.suffix) && VersionText(v) == VersionText(w)
    ensures v == w
  {
    hide Decimal, VersionText;
    VersionTextParts(v);
    VersionTextParts(w);
    DottedPrefix(v.major, MinorText(v), w.major, MinorText(w));
    DottedPrefix(v.minor, PatchText(v), w.minor, PatchText(w));
    DecimalPrefix(v.patch, v.suffix, w.patch, w.suffix);
  }

  /** Everything before the last '@', or nothing. */
  function NameOf(binding: string): string {
    if binding == "" then ""
    else if binding[|binding| - 1] == '@' then binding[..|binding| - 1]
    else NameOf(binding[..|binding| - 1])
  }

  /** Everything after the last '@', or all of it. */
  function VersionOf(binding: string): string {
    if binding == "" then ""
    else if binding[|binding| - 1] == '@' then ""
    else VersionOf(binding[..|binding| - 1]) + [binding[|binding| - 1]]
  }

  lemma {:induction false} SplitAtLast(name: string, version: string)
    requires '@' !in version
    ensures NameOf(name + "@" + version) == name && VersionOf(name + "@" + version) == version
    decreases |version|
  {
    var text := name + "@" + version;
    if version == "" {
      assert text == name + "@" && text[..|text| - 1] == name;
    } else {
      var init := version[..|version| - 1];
      assert text[..|text| - 1] == name + "@" + init;
      SplitAtLast(name, init);
    }
  }

  lemma {:induction false} DecimalHasNoAt(n: nat)
    ensures '@' !in Decimal(n)
    decreases n
  {
    if n >= 10 { DecimalHasNoAt(n / 10); }
  }

  lemma {:induction false} LastAtOrLater(text: string, k: nat)
    requires k < |text| && text[k] == '@'
    ensures |NameOf(text)| >= k
    decreases |text|
  {
    if k < |text| - 1 && text[|text| - 1] != '@' { LastAtOrLater(text[..|text| - 1], k); }
  }

  /** A binding the router wrote is split back into the name it came from exactly if the version has no
      at-sign of its own; then the version is read back too. */
  lemma BindingKeepsItsName(id: CapabilityId)
    ensures NameOf(Text(id)) == id.name <==> '@' !in id.version.suffix
    ensures '@' !in id.version.suffix ==> VersionOf(Text(id)) == VersionText(id.version)
  {
    hide Decimal, NameOf, VersionOf;
    DecimalHasNoAt(id.version.major);
    DecimalHasNoAt(id.version.minor);
    DecimalHasNoAt(id.version.patch);
    var text, whole := Text(id), VersionText(id.version);
    var front := id.name + "@" + whole[..|whole| - |id.version.suffix|];
    assert text == front + id.version.suffix;
    if '@' in id.version.suffix {
      var j :| 0 <= j < |id.version.suffix| && id.version.suffix[j] == '@';
      LastAtOrLater(text, |front| + j);
    } else {
      SplitAtLast(id.name, VersionText(id.version));
    }
  }

  /** The text before the first `stop`. */
  function Until(s: string, stop: char): string {
    if s == "" || s[0] == stop then "" else [s[0]] + Until(s[1..], stop)
  }

  /** The texts between the dots. */
  function Parts(s: string): (ps: seq<string>)
    ensures ps != []
  {
    if s == "" then [""]
    else
      var rest := Parts(s[1..]);
      if s[0] == '.' then [""] + rest else [[s[0]] + rest[0]] + rest[1..]
  }

  /** Digits, with single underscores between them. */
  function Number(s: string): Option<nat>
    decreases |s|
  {
    if s == "" || !Digit(s[|s| - 1]) then None
    else
      var digit, init := s[|s| - 1] as int - '0' as int, s[..|s| - 1];
      if init == "" then Some(digit)
      else
        var front := Number(if init[|init| - 1] == '_' then init[..|init| - 1] else init);
        if front.Some? then Some(10 * front.value + digit) else None
  }

  /** A text as a number; white space around it does not matter. */
  function ParsedInt(s: string): Option<nat>
    decreases |s|
  {
    if s != "" && Whitespace(s[0]) then ParsedInt(s[1..])
    else if s != "" && Whitespace(s[|s| - 1]) then ParsedInt(s[..|s| - 1])
    else Number(s)
  }

  function ParsedAll(parts: seq<string>): Option<seq<nat>> {
    if parts == [] then Some([])
    else
      var front, last := ParsedAll(parts[..|parts| - 1]), ParsedInt(parts[|parts| - 1]);
      if front.Some? && last.Some? then Some(front.value + [last.value]) else None
  }

  /** The numbers of a written version, up to its first sign; none if a part is not a number. */
  function VersionKey(version: string): Option<seq<nat>> {
    ParsedAll(Parts(Until(Until(version, '-'), '+')))
  }

  lemma {:induction false} UntilAfter(x: string, y: string, stop: char)
    requires stop !in x
    ensures Until(x + y, stop) == x + Until(y, stop)
    decreases |x|
  {
    if x == "" {
      assert x + y == y;
    } else {
      assert (x + y)[1..] == x[1..] + y;
      UntilAfter(x[1..], y, stop);
    }
  }

  lemma {:induction false} PartsAfter(x: string, y: string)
    requires '.' !in x
    ensures Parts(x + ("." + y)) == [x] + Parts(y)
    decreases |x|
  {
    var text := x + ("." + y);
    if x == "" {
      assert text == "." + y && text[1..] == y;
    } else {
      assert text[1..] == x[1..] + ("." + y);
      PartsAfter(x[1..], y);
      assert [x[0]] + x[1..] == x;
    }
  }

  lemma {:induction false} OnePart(x: string)
    requires '.' !in x
    ensures Parts(x) == [x]
    decreases |x|
  {
    if x != "" {
      OnePart(x[1..]);
      assert [x[0]] + x[1..] == x;
    }
  }

  lemma {:induction false} DecimalNumber(n: nat)
    ensures Number(Decimal(n)) == Some(n)
    decreases n
  {
    if n >= 10 {
      DecimalNumber(n / 10);
      DecimalDigits(n / 10);
      var s := Decimal(n);
      assert s[..|s| - 1] == Decimal(n / 10);
    }
  }

  lemma DecimalParsed(n: nat)
    ensures ParsedInt(Decimal(n)) == Some(n) && ParsedInt(Decimal(n) + "\n") == Some(n)
  {
    DecimalNumber(n);
    DecimalDigits(n);
    var s := Decimal(n) + "\n";
    assert s[..|s| - 1] == Decimal(n);
    hide Decimal, Number;
  }

  lemma DecimalIsPlain(n: nat)
    ensures '.' !in Decimal(n) && '-' !in Decimal(n) && '+' !in Decimal(n)
  {
    DecimalDigits(n);
  }

  /** The text that is left of a suffix when the numbers are read: nothing, or the line break. */
  function SuffixLeft(s: string): string { if s == "\n" then s else "" }

  lemma SuffixUntil(s: string)
    requires SuffixOk(s)
    ensures Until(Until(s, '-'), '+') == SuffixLeft(s)
  {
    if s == "\n" {
      assert s[1..] == "";
    }
  }

  lemma ThreeParsed(a: string, b: string, c: string, x: nat, y: nat, z: nat)
    requires ParsedInt(a) == Some(x) && ParsedInt(b) == Some(y) && ParsedInt(c) == Some(z)
    ensures ParsedAll([a, b, c]) == Some([x, y, z])
  {
    hide ParsedInt;
    assert [a, b, c][..2] == [a, b] && [a, b][..1] == [a] && [a][..0] == [];
    assert ParsedAll([]) == Some([]) && [] + [x] == [x];
    assert [a][0] == a && ParsedAll([a]) == Some([x]);
    assert [a, b][1] == b && ParsedAll([a, b]) == Some([x] + [y]);
    assert [a, b, c][2] == c && [x] + [y] + [z] == [x, y, z];
  }

  /** A version that passed validation is read back as its three numbers. */
  lemma VersionKeyOfText(v: Version)
    requires SuffixOk(v.suffix)
    ensures VersionKey(VersionText(v)) == Some([v.major, v.minor, v.patch])
  {
    hide Decimal, Until, Parts, ParsedInt, ParsedAll, SuffixOk;
    var (a, b, c) := (Decimal(v.major), Decimal(v.minor), Decimal(v.patch));
    DecimalIsPlain(v.major);
    DecimalIsPlain(v.minor);
    DecimalIsPlain(v.patch);
    DecimalParsed(v.major);
    DecimalParsed(v.minor);
    DecimalParsed(v.patch);
    SuffixUntil(v.suffix);
    var numbers := a + "." + b + "." + c;
    assert VersionText(v) == numbers + v.suffix;
    UntilAfter(numbers, v.suffix, '-');
    UntilAfter(numbers, Until(v.suffix, '-'), '+');
    var left := c + SuffixLeft(v.suffix);
    assert numbers + SuffixLeft(v.suffix) == a + ("." + (b + ("." + left)));
    PartsAfter(a, b + ("." + left));
    PartsAfter(b, left);
    OnePart(left);
    assert [a] + ([b] + [left]) == [a, b, left];
    assert ParsedInt(left) == Some(v.patch) by { assert c + "" == c; }
    ThreeParsed(a, b, left, v.major, v.minor, v.patch);
  }

  // -- orders -----------------------------------------------------------------------------------

  /** Strings compare character by character, a prefix before its extensions. */
  predicate StringLe(a: string, b: string) {
    if a == "" then true
    else if b == "" then false
    else a[0] < b[0] || (a[0] == b[0] && StringLe(a[1..], b[1..]))
  }

  /** Only the numeric part orders versions (a part of section 11 of Semantic Versioning 2.0.0). */
  predicate VersionLe(a: Version, b: Version) {
    || a.major < b.major
    || (a.major == b.major && a.minor < b.minor)
    || (a.major == b.major && a.minor == b.minor && a.patch <= b.patch)
  }

  predicate SameNumbers(a: Version, b: Version) {
    a.major == b.major && a.minor == b.minor && a.patch == b.patch
  }

  predicate IdLe(a: CapabilityId, b: CapabilityId) {
    if a.name == b.name then VersionLe(a.version, b.version) else StringLe(a.name, b.name)
  }

  /** The first difference decides; a text that ends before any comes first. */
  lemma {:induction false} StringSays(a: string, b: string)
    ensures StringLe(a, b) <==>
              exists k :: 0 <= k <= |a| && k <= |b| && a[..k] == b[..k] && (k == |a| || (k < |b| && a[k] < b[k]))
    decreases |a|
  {
    if a == "" {
      assert a[..0] == b[..0];
    } else if b != "" && a[0] == b[0] {
      StringSays(a[1..], b[1..]);
      if StringLe(a[1..], b[1..]) {
        var k :| 0 <= k <= |a[1..]| && k <= |b[1..]| && a[1..][..k] == b[1..][..k]
                 && (k == |a[1..]| || (k < |b[1..]| && a[1..][k] < b[1..][k]));
        assert a[..k + 1] == [a[0]] + a[1..][..k] && b[..k + 1] == [b[0]] + b[1..][..k];
        assert k + 1 == |a| || a[k + 1] < b[k + 1];
      }
      if k :| 0 <= k <= |a| && k <= |b| && a[..k] == b[..k] && (k == |a| || (k < |b| && a[k] < b[k])) {
        assert k > 0 && a[1..][..k - 1] == a[..k][1..] && b[1..][..k - 1] == b[..k][1..];
        assert k == |a| || a[1..][k - 1] < b[1..][k - 1];
      }
    } else if b != "" {
      if a[0] < b[0] { assert a[..0] == b[..0]; }
      if k :| 0 <= k <= |a| && k <= |b| && a[..k] == b[..k] && (k == |a| || (k < |b| && a[k] < b[k])) {
        assert k == 0 || a[..k][0] == b[..k][0];
      }
    }
  }

  lemma {:induction false} StringTotal(a: string, b: string)
    ensures StringLe(a, b) || StringLe(b, a)
    ensures StringLe(a, b) && StringLe(b, a) ==> a == b
    decreases |a|
  {
    if a != "" && b != "" {
      StringTotal(a[1..], b[1..]);
      assert a == [a[0]] + a[1..] && b == [b[0]] + b[1..];
    }
  }

  lemma {:induction false} StringTransitive(a: string, b: string, c: string)
    requires StringLe(a, b) && StringLe(b, c)
    ensures StringLe(a, c)
    decreases |a|
  {
    if a != "" && a[0] == b[0] && b[0] == c[0] { StringTransitive(a[1..], b[1..], c[1..]); }
  }

  lemma IdOrder()
    ensures TotalPreorder((a, b) => IdLe(a, b))
    ensures forall a, b :: IdLe(a, b) && IdLe(b, a) ==> a.name == b.name && SameNumbers(a.version, b.version)
  {
    hide StringLe;
    forall a: CapabilityId, b: CapabilityId
      ensures IdLe(a, b) || IdLe(b, a)
      ensures IdLe(a, b) && IdLe(b, a) ==> a.name == b.name && SameNumbers(a.version, b.version)
    {
      StringTotal(a.name, b.name);
    }
    forall a: CapabilityId, b: CapabilityId, c: CapabilityId | IdLe(a, b) && IdLe(b, c) ensures IdLe(a, c) {
      if a.name != b.name && b.name != c.name {
        StringTransitive(a.name, b.name, c.name);
        StringTotal(a.name, b.name);
      }
    }
  }

  // -- scores -----------------------------------------------------------------------------------

  const RELIABILITY_STEP := 0.2
  const TRUST_STEP := 0.1

  /** One verified outcome, with the reward Cog computed for it, if any. */
  datatype Outcome = Outcome(success: bool, confidence: real, reward: Option<real>)

  function ReliabilityTarget(o: Outcome): real { if o.success then 1.0 else 0.0 }

  function TrustTarget(o: Outcome): real {
    if !o.success then 0.0 else if o.reward.Some? then Clamp(o.reward.value) else o.confidence
  }

  function Moved(x: real, step: real, target: real): real { Clamp(x + step * (target - x)) }

  function Scored(m: Manifest, o: Outcome): Manifest {
    m.(reliability := Moved(m.reliability, RELIABILITY_STEP, ReliabilityTarget(o)),
       trust := Moved(m.trust, TRUST_STEP, TrustTarget(o)))
  }

  function ScoredAll(m: Manifest, os: seq<Outcome>): Manifest {
    if os == [] then m else Scored(ScoredAll(m, os[..|os| - 1]), os[|os| - 1])
  }

  function Pow(d: real, n: nat): real { if n == 0 then 1.0 else d * Pow(d, n - 1) }

  /** A target that has faded by the factor `p`. */
  function Share(d: real, p: real, target: real): real { (1.0 - d) * (p * target) }

  /** The share of the past targets in a score: target i of n weighs (1 - d) * d^(n-1-i). */
  function WeightedSum(d: real, targets: seq<real>): real {
    if targets == [] then 0.0
    else Share(d, Pow(d, |targets| - 1), targets[0]) + WeightedSum(d, targets[1..])
  }

  function ReliabilityTargets(os: seq<Outcome>): (ts: seq<real>)
    ensures |ts| == |os|
  {
    seq(|os|, i requires 0 <= i < |os| => ReliabilityTarget(os[i]))
  }

  function TrustTargets(os: seq<Outcome>): (ts: seq<real>)
    ensures |ts| == |os|
  {
    seq(|os|, i requires 0 <= i < |os| => TrustTarget(os[i]))
  }

  /** A confidence outside [0, 1] reaches the trust score only through an unshaped success. */
  predicate Bounded(o: Outcome) { 0.0 <= TrustTarget(o) <= 1.0 }

  /** A step towards a target: the old value fades by `d`. */
  function Mix(d: real, x: real, t: real): real { d * x + (1.0 - d) * t }

  function Line(p: real, x: real, w: real): real { p * x + w }

  function ClosedForm(d: real, x: real, targets: seq<real>): real {
    Line(Pow(d, |targets|), x, WeightedSum(d, targets))
  }

  function Faded(d: real, p: real): real { d * p }

  lemma PowStep(d: real, n: nat)
    ensures Pow(d, n + 1) == Faded(d, Pow(d, n))
  {}

  lemma ShareFades(d: real, p: real, x: real, rest: real, t: real)
    ensures Share(d, Faded(d, p), x) + Mix(d, rest, t) == Mix(d, Share(d, p, x) + rest, t)
  {
    var y := p * x;
    assert (d * p) * x == d * y;
    assert (1.0 - d) * (d * y) == d * ((1.0 - d) * y);
    var z := (1.0 - d) * y;
    assert d * (z + rest) == d * z + d * rest;
  }

  lemma FirstShare(d: real, t: real)
    ensures WeightedSum(d, [t]) == Mix(d, 0.0, t)
  {
    assert Pow(d, 0) * t == t;
  }

  lemma {:induction false} WeightedSumAppend(d: real, ts: seq<real>, t: real)
    ensures WeightedSum(d, ts + [t]) == Mix(d, WeightedSum(d, ts), t)
    decreases |ts|
  {
    hide Mix, Share, Pow, Faded;
    if ts == [] {
      assert ts + [t] == [t];
      FirstShare(d, t);
    } else {
      WeightedSumAppend(d, ts[1..], t);
      assert (ts + [t])[1..] == ts[1..] + [t];
      PowStep(d, |ts| - 1);
      ShareFades(d, Pow(d, |ts| - 1), ts[0], WeightedSum(d, ts[1..]), t);
    }
  }

  lemma LineFades(d: real, p: real, x: real, w: real, t: real)
    ensures Mix(d, Line(p, x, w), t) == Line(Faded(d, p), x, Mix(d, w, t))
  {
    var y := p * x;
    assert (d * p) * x == d * y;
    assert d * (y + w) == d * y + d * w;
  }

  lemma ClosedStep(d: real, x: real, ts: seq<real>, t: real)
    ensures Mix(d, ClosedForm(d, x, ts), t) == ClosedForm(d, x, ts + [t])
  {
    hide Mix, WeightedSum, Line, Pow;
    WeightedSumAppend(d, ts, t);
    LineFades(d, Pow(d, |ts|), x, WeightedSum(d, ts), t);
    PowStep(d, |ts|);
    assert |ts + [t]| == |ts| + 1;
  }

  lemma ClosedStart(d: real, x: real)
    ensures ClosedForm(d, x, []) == x
  {}

  lemma ScoredOnce(m: Manifest, o: Outcome)
    requires 0.0 <= m.reliability <= 1.0 && 0.0 <= m.trust <= 1.0 && Bounded(o)
    ensures Scored(m, o).reliability == Mix(0.8, m.reliability, ReliabilityTarget(o))
    ensures Scored(m, o).trust == Mix(0.9, m.trust, TrustTarget(o))
    ensures 0.0 <= Scored(m, o).reliability <= 1.0 && 0.0 <= Scored(m, o).trust <= 1.0
  {
    hide TrustTarget;
  }

  /** What one verified outcome does: reliability moves a fifth of the way to 1 or 0, trust a tenth of the
      way to 0 after a failure and after a success to the reward, or without one to the confidence. */
  lemma ScoredSays(m: Manifest, o: Outcome)
    requires 0.0 <= m.reliability <= 1.0 && 0.0 <= m.trust <= 1.0 && 0.0 <= o.confidence <= 1.0
    ensures var (now, reward) := (Scored(m, o), if o.reward.Some? then o.reward.value else o.confidence);
            && now.reliability == 0.8 * m.reliability + (if o.success then 0.2 else 0.0)
            && now.trust == 0.9 * m.trust + (if !o.success || reward <= 0.0 then 0.0
                                             else if reward >= 1.0 then 0.1 else 0.1 * reward)
            && now == m.(reliability := now.reliability, trust := now.trust)
  {
    ScoredOnce(m, o);
  }

  /** Scores in closed form: the registered value fades by 4/5 and 9/10 per verified outcome, and
      each outcome's target fades likewise with age. The clamp never acts. */
  lemma {:induction false} ScoresInClosedForm(m: Manifest, os: seq<Outcome>)
    requires 0.0 <= m.reliability <= 1.0 && 0.0 <= m.trust <= 1.0
    requires forall i :: 0 <= i < |os| ==> Bounded(os[i])
    ensures ScoredAll(m, os).reliability == ClosedForm(0.8, m.reliability, ReliabilityTargets(os))
    ensures ScoredAll(m, os).trust == ClosedForm(0.9, m.trust, TrustTargets(os))
    ensures 0.0 <= ScoredAll(m, os).reliability <= 1.0 && 0.0 <= ScoredAll(m, os).trust <= 1.0
    decreases |os|
  {
    hide Scored, TrustTarget, ReliabilityTarget, Bounded, ClosedForm, Mix;
    if os == [] {
      ClosedStart(0.8, m.reliability);
      ClosedStart(0.9, m.trust);
    } else {
      var init, o := os[..|os| - 1], os[|os| - 1];
      ScoresInClosedForm(m, init);
      ScoredOnce(ScoredAll(m, init), o);
      assert ReliabilityTargets(os) == ReliabilityTargets(init) + [ReliabilityTarget(o)];
      assert TrustTargets(os) == TrustTargets(init) + [TrustTarget(o)];
      ClosedStep(0.8, m.reliability, ReliabilityTargets(init), ReliabilityTarget(o));
      ClosedStep(0.9, m.trust, TrustTargets(init), TrustTarget(o));
    }
  }

  // -- better histories ------------------------------------------------------------------------

  /** `o'` is at least as good an outcome as `o`. */
  predicate NoWorse(o: Outcome, o': Outcome) {
    (o.success ==> o'.success) && TrustTarget(o) <= TrustTarget(o')
  }

  lemma MovedMonotone(x: real, x': real, step: real, t: real, t': real)
    requires x <= x' && t <= t' && (step == RELIABILITY_STEP || step == TRUST_STEP)
    ensures Moved(x, step, t) <= Moved(x', step, t')
  {
    if step == RELIABILITY_STEP {
      ClampMonotone(x + 0.2 * (t - x), x' + 0.2 * (t' - x'));
    } else {
      ClampMonotone(x + 0.1 * (t - x), x' + 0.1 * (t' - x'));
    }
  }

  /** A history no worse at any point, from a manifest scored no lower, yields scores no lower. */
  lemma {:induction false} BetterHistoryScoresHigher(m: Manifest, os: seq<Outcome>, m': Manifest, os': seq<Outcome>)
    requires |os| == |os'| && m.reliability <= m'.reliability && m.trust <= m'.trust
    requires forall i :: 0 <= i < |os| ==> NoWorse(os[i], os'[i])
    ensures ScoredAll(m, os).reliability <= ScoredAll(m', os').reliability
    ensures ScoredAll(m, os).trust <= ScoredAll(m', os').trust
    decreases |os|
  {
    hide Moved, TrustTarget;
    if os != [] {
      var n := |os|;
      BetterHistoryScoresHigher(m, os[..n - 1], m', os'[..n - 1]);
      var a, b := ScoredAll(m, os[..n - 1]), ScoredAll(m', os'[..n - 1]);
      assert NoWorse(os[n - 1], os'[n - 1]);
      MovedMonotone(a.reliability, b.reliability, RELIABILITY_STEP, ReliabilityTarget(os[n - 1]),
                    ReliabilityTarget(os'[n - 1]));
      MovedMonotone(a.trust, b.trust, TRUST_STEP, TrustTarget(os[n - 1]), TrustTarget(os'[n - 1]));
    }
  }

  /** The outcome Cog records for one settled task. */
  function ShapedOutcome(shaper: RewardShaper, e: Evidence, success: bool): Outcome {
    Outcome(success, e.confidence, Some(shaper.Reward(e, success)))
  }

  /** More success, more confidence or less cost in the evidence is never a worse outcome, and a
      shaped outcome never moves a score out of range. */
  lemma BetterEvidenceIsNoWorse(shaper: RewardShaper, e: Evidence, success: bool, e': Evidence, success': bool)
    requires shaper.Sensible() && (success ==> success')
    requires e.confidence <= e'.confidence && CostSignal(e'.cost) <= CostSignal(e.cost)
    ensures NoWorse(ShapedOutcome(shaper, e, success), ShapedOutcome(shaper, e', success'))
    ensures Bounded(ShapedOutcome(shaper, e, success))
  {
    hide CostSignal, RewardShaper.Reward;
    RewardIsMonotone(shaper, e, success, e', success');
  }

  // -- discovery --------------------------------------------------------------------------------

  type Records = map<CapabilityId, Record>

  predicate Matches(r: Record, capabilityType: string, healthyOnly: bool, includeRetired: bool) {
    && r.manifest.capabilityType == capabilityType
    && (includeRetired || r.status == ACTIVE)
    && (!healthyOnly || r.health == HEALTHY)
  }

  predicate RecordLe(a: Record, b: Record) { IdLe(a.manifest.id, b.manifest.id) }

  function Matching(records: Records, keys: seq<CapabilityId>, capabilityType: string, healthyOnly: bool,
                    includeRetired: bool): seq<Record>
  {
    if keys == [] then []
    else
      var rest := Matching(records, keys[..|keys| - 1], capabilityType, healthyOnly, includeRetired);
      var last := keys[|keys| - 1];
      var matches := last in records && Matches(records[last], capabilityType, healthyOnly, includeRetired);
      if matches then rest + [records[last]] else rest
  }

  function Found(records: Records, keys: seq<CapabilityId>, capabilityType: string, healthyOnly: bool,
                 includeRetired: bool): seq<Record>
  {
    SortBy(Matching(records, keys, capabilityType, healthyOnly, includeRetired), (a, b) => RecordLe(a, b))
  }

  ghost predicate DistinctKeys(keys: seq<CapabilityId>) {
    forall i, j :: 0 <= i < j < |keys| ==> keys[i] != keys[j]
  }

  /** The records and the dictionary order of their keys. */
  ghost predicate Indexed(records: Records, keys: seq<CapabilityId>) {
    && DistinctKeys(keys)
    && (forall k :: k in keys <==> k in records)
    && (forall k :: k in records ==> records[k].manifest.id == k)
  }

  lemma {:induction false} MatchingMembers(records: Records, keys: seq<CapabilityId>, capabilityType: string,
                                           healthyOnly: bool, includeRetired: bool)
    requires DistinctKeys(keys) && (forall k :: k in records ==> records[k].manifest.id == k)
    ensures var found := Matching(records, keys, capabilityType, healthyOnly, includeRetired);
            && (forall r :: r in found <==>
                              && r.manifest.id in keys && r.manifest.id in records && records[r.manifest.id] == r
                              && Matches(r, capabilityType, healthyOnly, includeRetired))
            && (forall i, j :: 0 <= i < j < |found| ==> found[i] != found[j])
    decreases |keys|
  {
    hide Matches;
    if keys != [] {
      var init, last := keys[..|keys| - 1], keys[|keys| - 1];
      MatchingMembers(records, init, capabilityType, healthyOnly, includeRetired);
      assert keys == init + [last];
      assert last !in init;
      var rest := Matching(records, init, capabilityType, healthyOnly, includeRetired);
      if last in records {
        assert records[last] !in rest;
        forall i | 0 <= i < |rest| ensures rest[i] != records[last] { assert rest[i] in rest; }
      }
    }
  }

  /** Finding returns exactly the matching records, once each, by name and then numeric version. */
  lemma FoundIsExact(records: Records, keys: seq<CapabilityId>, capabilityType: string, healthyOnly: bool,
                     includeRetired: bool)
    requires Indexed(records, keys)
    ensures var found := Found(records, keys, capabilityType, healthyOnly, includeRetired);
            && (forall r :: r in found <==> r.manifest.id in records && records[r.manifest.id] == r &&
                                            Matches(r, capabilityType, healthyOnly, includeRetired))
            && (forall i, j :: 0 <= i < j < |found| ==> found[i] != found[j] && RecordLe(found[i], found[j]))
  {
    var all := Matching(records, keys, capabilityType, healthyOnly, includeRetired);
    MatchingMembers(records, keys, capabilityType, healthyOnly, includeRetired);
    RecordOrder();
    hide Matching, SortBy, Matches, RecordLe, TotalPreorder;
    SortBySorted(all, (a, b) => RecordLe(a, b));
    SameMembers(SortBy(all, (a, b) => RecordLe(a, b)), all);
    RearrangedDistinct(SortBy(all, (a, b) => RecordLe(a, b)), all);
  }

  /** The order of what is found: by name, and under one name by the version's numbers. */
  lemma FoundOrder(records: Records, keys: seq<CapabilityId>, capabilityType: string, healthyOnly: bool,
                   includeRetired: bool, i: nat, j: nat)
    requires Indexed(records, keys) && i < j < |Found(records, keys, capabilityType, healthyOnly, includeRetired)|
    ensures var found := Found(records, keys, capabilityType, healthyOnly, includeRetired);
            var (a, b) := (found[i].manifest.id, found[j].manifest.id);
            var (v, w) := (a.version, b.version);
            if a.name != b.name then StringLe(a.name, b.name)
            else v.major < w.major || (v.major == w.major && (v.minor < w.minor
                                                              || (v.minor == w.minor && v.patch <= w.patch)))
  {
    FoundIsExact(records, keys, capabilityType, healthyOnly, includeRetired);
    hide Found, StringLe, Matches;
    var found := Found(records, keys, capabilityType, healthyOnly, includeRetired);
    assert RecordLe(found[i], found[j]);
  }

  lemma RecordOrder()
    ensures TotalPreorder((a, b) => RecordLe(a, b))
  {
    IdOrder();
    var le := (a: CapabilityId, b: CapabilityId) => IdLe(a, b);
    hide IdLe;
    forall a: Record, b: Record ensures RecordLe(a, b) || RecordLe(b, a) {
      assert le(a.manifest.id, b.manifest.id) || le(b.manifest.id, a.manifest.id);
    }
    forall a: Record, b: Record, c: Record | RecordLe(a, b) && RecordLe(b, c) ensures RecordLe(a, c) {
      assert le(a.manifest.id, b.manifest.id) && le(b.manifest.id, c.manifest.id);
    }
  }

  // -- the registry -----------------------------------------------------------------------------

  /** A capability's manifest as registered, and the outcomes recorded since. */
  datatype Past = Past(registered: Manifest, outcomes: seq<Outcome>)

  ghost predicate AccountedAt(r: Record, p: Past) {
    WellFormed(p.registered) && r.manifest == ScoredAll(p.registered, p.outcomes)
  }

  ghost predicate Accounted(records: Records, past: map<CapabilityId, Past>) {
    past.Keys == records.Keys && forall k :: k in records ==> AccountedAt(records[k], past[k])
  }

  /** Replacing or adding the record of `m.id` keeps the order of the others. */
  lemma IndexedWith(records: Records, keys: seq<CapabilityId>, r: Record)
    requires Indexed(records, keys)
    ensures var id := r.manifest.id; Indexed(records[id := r], if id in records then keys else keys + [id])
  {
    var id := r.manifest.id;
    if id !in records {
      assert id !in keys;
      forall i, j | 0 <= i < j < |keys + [id]| ensures (keys + [id])[i] != (keys + [id])[j] {
        if j == |keys| { assert keys[i] in keys; }
      }
    }
  }

  lemma AccountedWith(records: Records, past: map<CapabilityId, Past>, id: CapabilityId, r: Record, p: Past)
    requires Accounted(records, past) && AccountedAt(r, p)
    ensures Accounted(records[id := r], past[id := p])
  {
    hide AccountedAt;
  }

  lemma FreshPast(m: Manifest)
    requires WellFormed(m)
    ensures AccountedAt(Record(m, ACTIVE, UNKNOWN), Past(m, []))
  {}

  /** A change of status or health touches no manifest. */
  lemma RecordKept(records: Records, keys: seq<CapabilityId>, past: map<CapabilityId, Past>, id: CapabilityId,
                   r: Record)
    requires Indexed(records, keys) && Accounted(records, past) && id in records && r.manifest == records[id].manifest
    ensures Indexed(records[id := r], keys) && Accounted(records[id := r], past)
  {
    IndexedWith(records, keys, r);
    AccountedWith(records, past, id, r, past[id]);
    assert past[id := past[id]] == past;
  }

  /** Scoring a capability adds the outcome to its past. */
  lemma OutcomeKept(records: Records, keys: seq<CapabilityId>, past: map<CapabilityId, Past>, id: CapabilityId,
                    o: Outcome)
    requires Indexed(records, keys) && Accounted(records, past) && id in records
    ensures var r := records[id].(manifest := Scored(records[id].manifest, o));
            var p := past[id].(outcomes := past[id].outcomes + [o]);
            id in past && Indexed(records[id := r], keys) && Accounted(records[id := r], past[id := p])
  {
    var r := records[id].(manifest := Scored(records[id].manifest, o));
    var p := past[id].(outcomes := past[id].outcomes + [o]);
    ScoredAllAppend(past[id].registered, past[id].outcomes, o);
    hide Scored, DistinctKeys;
    assert AccountedAt(records[id], past[id]);
    IndexedWith(records, keys, r);
    AccountedWith(records, past, id, r, p);
  }

  /** What a manifest is checked for. */
  lemma WellFormedSays(m: Manifest)
    ensures WellFormed(m) <==>
              !(|| Blank(m.id.name) || Blank(m.capabilityType) || !SuffixOk(m.id.version.suffix)
                || m.cost < 0.0 || m.latency < 0.0
                || !(0.0 <= m.reliability <= 1.0) || !(0.0 <= m.trust <= 1.0)
                || !(0.0 <= m.evidenceScore <= 1.0) || !(0.0 <= m.confidence <= 1.0))
  {
    hide Blank, SuffixOk;
  }

  class Registry {
    const allowedPermissions: Option<set<string>>
    const knownTypes: Option<set<string>>
    var records: Records
    var keys: seq<CapabilityId>  // the dictionary's insertion order
    ghost var past: map<CapabilityId, Past>

    /** Scores are what the outcomes since registration make of the registered ones. */
    ghost predicate Valid()
      reads this
    {
      Indexed(records, keys) && Accounted(records, past)
    }

    constructor (allowedPermissions: Option<set<string>>, knownTypes: Option<set<string>>)
      ensures Valid() && records == map[] && this.allowedPermissions == allowedPermissions
              && this.knownTypes == knownTypes
    {
      this.allowedPermissions, this.knownTypes := allowedPermissions, knownTypes;
      records, keys, past := map[], [], map[];
    }

    predicate Admissible(m: Manifest) {
      && WellFormed(m)
      && (knownTypes.Some? ==> m.capabilityType in knownTypes.value)
      && (allowedPermissions.Some? ==> m.permissions <= allowedPermissions.value)
    }

    predicate IsActive(id: CapabilityId)
      reads this`records
    {
      id in records && records[id].status == ACTIVE
    }

    /** A retired capability may be registered again; an active one may not. */
    method Register(m: Manifest) returns (err: Option<RegistryError>)
      requires Valid()
      modifies this
      ensures Valid()
      ensures err == if !Admissible(m) then Some(ManifestRejected)
                     else if old(IsActive(m.id)) then Some(AlreadyRegistered) else None
      ensures err == Some(ManifestRejected) <==>
                || Blank(m.id.name) || Blank(m.capabilityType) || !SuffixOk(m.id.version.suffix)
                || m.cost < 0.0 || m.latency < 0.0
                || !(0.0 <= m.reliability <= 1.0) || !(0.0 <= m.trust <= 1.0)
                || !(0.0 <= m.evidenceScore <= 1.0) || !(0.0 <= m.confidence <= 1.0)
                || (knownTypes.Some? && m.capabilityType !in knownTypes.value)
                || (allowedPermissions.Some? && exists p :: p in m.permissions && p !in allowedPermissions.value)
      ensures records == if err.None? then old(records)[m.id := Record(m, ACTIVE, UNKNOWN)] else old(records)
      ensures past == if err.None? then old(past)[m.id := Past(m, [])] else old(past)
      ensures keys == if err.None? && m.id !in old(records) then old(keys) + [m.id] else old(keys)
    {
      WellFormedSays(m);
      hide WellFormed, Indexed, Accounted, ScoredAll, SuffixOk, Blank;
      if !Admissible(m) { return Some(ManifestRejected); }
      FreshPast(m);
      if m.id in records && records[m.id].status == ACTIVE { return Some(AlreadyRegistered); }
      IndexedWith(records, keys, Record(m, ACTIVE, UNKNOWN));
      AccountedWith(records, past, m.id, Record(m, ACTIVE, UNKNOWN), Past(m, []));
      if m.id !in records { keys := keys + [m.id]; }
      records := records[m.id := Record(m, ACTIVE, UNKNOWN)];
      past := past[m.id := Past(m, [])];
      err := None;
    }

    method Retire(id: CapabilityId) returns (err: Option<RegistryError>)
      requires Valid()
      modifies this`records
      ensures Valid()
      ensures err == if id in old(records) then None else Some(UnknownCapability)
      ensures records == if id in old(records) then old(records)[id := old(records)[id].(status := RETIRED)]
                         else old(records)
    {
      hide Indexed, Accounted;
      if id !in records { return Some(UnknownCapability); }
      RecordKept(records, keys, past, id, records[id].(status := RETIRED));
      records := records[id := records[id].(status := RETIRED)];
      err := None;
    }

    /** The records of a type, by name and then numeric version. */
    method Find(capabilityType: string, healthyOnly: bool, includeRetired: bool) returns (found: seq<Record>)
      requires Valid()
      ensures found == Found(records, keys, capabilityType, healthyOnly, includeRetired)
      ensures forall r :: r in found <==>
                            && r.manifest.id in records && records[r.manifest.id] == r
                            && r.manifest.capabilityType == capabilityType
                            && (r.status == ACTIVE || includeRetired) && (healthyOnly ==> r.health == HEALTHY)
      ensures forall i, j :: 0 <= i < j < |found| ==> found[i] != found[j] && RecordLe(found[i], found[j])
    {
      found := Found(records, keys, capabilityType, healthyOnly, includeRetired);
      FoundIsExact(records, keys, capabilityType, healthyOnly, includeRetired);
    }

    /** The newest active version of a name: the first registered of the numerically greatest. */
    method Latest(name: string) returns (found: Option<Record>)
      requires Valid()
      ensures found.None? <==> forall id :: id in records && id.name == name ==> records[id].status != ACTIVE
      ensures found.Some? ==>
                && found.value.manifest.id.name == name && IsActive(found.value.manifest.id)
                && records[found.value.manifest.id] == found.value
                && forall id :: IsActive(id) && id.name == name ==>
                     var (v, w) := (id.version, found.value.manifest.id.version);
                     v.major < w.major || (v.major == w.major && (v.minor < w.minor
                                                                  || (v.minor == w.minor && v.patch <= w.patch)))
    {
      hide Accounted, DistinctKeys;
      found := None;
      for i := 0 to |keys|
        invariant found.None? <==> forall j :: 0 <= j < i ==> keys[j].name == name ==> records[keys[j]].status != ACTIVE
        invariant found.Some? ==>
                    && found.value.manifest.id.name == name && IsActive(found.value.manifest.id)
                    && records[found.value.manifest.id] == found.value
                    && forall j :: 0 <= j < i && IsActive(keys[j]) && keys[j].name == name ==>
                         VersionLe(keys[j].version, found.value.manifest.id.version)
      {
        var r := records[keys[i]];
        if keys[i].name == name && r.status == ACTIVE
           && (found.None? || !VersionLe(keys[i].version, found.value.manifest.id.version))
        {
          found := Some(r);
        }
      }
      forall id | id in records ensures exists j :: 0 <= j < |keys| && keys[j] == id { assert id in keys; }
    }

    /** `probe` is what the capability's health probe reports, if it has one; a raising probe reports
        false. */
    method CheckHealth(id: CapabilityId, probe: Option<bool>) returns (health: Option<Health>)
      requires Valid()
      modifies this`records
      ensures Valid()
      ensures health.None? <==> id !in old(records)
      ensures id !in old(records) ==> records == old(records)
      ensures id in old(records) ==>
                && health.value == (if probe.None? then old(records)[id].health
                                    else if probe.value then HEALTHY else UNHEALTHY)
                && records == old(records)[id := old(records)[id].(health := health.value)]
    {
      hide Indexed, Accounted;
      if id !in records { return None; }
      if probe.None? { return Some(records[id].health); }
      var now := if probe.value then HEALTHY else UNHEALTHY;
      RecordKept(records, keys, past, id, records[id].(health := now));
      records := records[id := records[id].(health := now)];
      health := Some(now);
    }

    /** The only way a score moves: verified evidence about a known capability. */
    method RecordOutcome(id: CapabilityId, evidence: Evidence, success: bool, reward: Option<real>)
      returns (err: Option<RegistryError>)
      requires Valid()
      modifies this`records, this`past
      ensures Valid()
      ensures err == if !evidence.verified then Some(Unverified)
                     else if id !in old(records) then Some(UnknownCapability) else None
      ensures err.Some? ==> records == old(records) && past == old(past)
      ensures err.None? ==>
                && var o := Outcome(success, evidence.confidence, reward);
                && records == old(records)[id := old(records)[id].(manifest := Scored(old(records)[id].manifest, o))]
                && past == old(past)[id := old(past)[id].(outcomes := old(past)[id].outcomes + [o])]
    {
      hide Moved, TrustTarget, ReliabilityTarget, Clamp, Indexed, Accounted, ScoredAll;
      if !evidence.verified { return Some(Unverified); }
      if id !in records { return Some(UnknownCapability); }
      ghost var o := Outcome(success, evidence.confidence, reward);
      ghost var after := records[id].(manifest := Scored(records[id].manifest, o));
      OutcomeKept(records, keys, past, id, o);
      var m := records[id].manifest;
      var reliabilityTarget := if success then 1.0 else 0.0;
      var trustTarget := if success then (if reward.Some? then Clamp(reward.value) else evidence.confidence) else 0.0;
      TargetsOf(o, reliabilityTarget, trustTarget);
      m := m.(reliability := Moved(m.reliability, RELIABILITY_STEP, reliabilityTarget));
      m := m.(trust := Moved(m.trust, TRUST_STEP, trustTarget));
      assert records[id].(manifest := m) == after;
      records := records[id := records[id].(manifest := m)];
      past := past[id := past[id].(outcomes := past[id].outcomes + [o])];
      err := None;
    }
  }

  lemma TargetsOf(o: Outcome, reliabilityTarget: real, trustTarget: real)
    requires reliabilityTarget == if o.success then 1.0 else 0.0
    requires trustTarget == if o.success then (if o.reward.Some? then Clamp(o.reward.value) else o.confidence) else 0.0
    ensures reliabilityTarget == ReliabilityTarget(o) && trustTarget == TrustTarget(o)
  {}

  lemma ScoredAllAppend(m: Manifest, os: seq<Outcome>, o: Outcome)
    ensures ScoredAll(m, os + [o]) == Scored(ScoredAll(m, os), o)
    ensures Scored(m, o).id == m.id
  {
    assert (os + [o])[..|os|] == os;
  }

  lemma SuffixesOk(records: Records, keys: seq<CapabilityId>, past: map<CapabilityId, Past>, id: CapabilityId)
    requires Indexed(records, keys) && Accounted(records, past) && id in keys
    ensures SuffixOk(id.version.suffix)
  {
    hide SuffixOk;
    assert AccountedAt(records[id], past[id]);
    ScoringKeepsId(past[id].registered, past[id].outcomes);
  }

  /** Outcomes move scores and nothing else. */
  lemma {:induction false} ScoringKeepsId(m: Manifest, os: seq<Outcome>)
    ensures var now := ScoredAll(m, os);
            now == m.(reliability := now.reliability, trust := now.trust)
    decreases |os|
  {
    hide Moved, ReliabilityTarget, TrustTarget;
    if os != [] { ScoringKeepsId(m, os[..|os| - 1]); }
  }

  lemma MovedUp(x: real, step: real, target: real)
    requires 0.0 <= x <= 1.0 && x <= target && (step == RELIABILITY_STEP || step == TRUST_STEP)
    ensures x <= Moved(x, step, target)
  {}

  /** A success that pays at least the present trust lowers no score of a registered capability. */
  lemma SuccessRaises(records: Records, past: map<CapabilityId, Past>, id: CapabilityId, o: Outcome)
    requires Accounted(records, past) && id in records && o.success && records[id].manifest.trust <= TrustTarget(o)
    ensures var (was, now) := (records[id].manifest, Scored(records[id].manifest, o));
            && now == was.(reliability := now.reliability, trust := now.trust)
            && was.reliability <= now.reliability && was.trust <= now.trust
  {
    hide Moved, TrustTarget;
    assert AccountedAt(records[id], past[id]);
    ScoresInRange(past[id].registered, past[id].outcomes);
    var m := records[id].manifest;
    MovedUp(m.reliability, RELIABILITY_STEP, ReliabilityTarget(o));
    MovedUp(m.trust, TRUST_STEP, TrustTarget(o));
  }

  lemma ScoresInRange(m: Manifest, os: seq<Outcome>)
    requires WellFormed(m)
    ensures 0.0 <= ScoredAll(m, os).reliability <= 1.0 && 0.0 <= ScoredAll(m, os).trust <= 1.0
  {
    hide TrustTarget;
    if os != [] {
      var last := ScoredAll(m, os[..|os| - 1]);
      assert ScoredAll(m, os) == Scored(last, os[|os| - 1]);
    }
  }
}
