/** Model of the object-key builders of the storage helper
    (`storage.generateKey` and `storage.generateJobOutputKey` in
    lib/storage.ts).

    JavaScript strings are sequences of UTF-16 code units, and the regular
    expression of `generateKey` (no `u` flag) looks at one code unit at a
    time, so strings are `seq<CodeUnit>` here. The clock reading
    `Date.now()` is a parameter. */
module Storage {

  newtype CodeUnit = x: int | 0 <= x < 0x1_0000

  type JsString = seq<CodeUnit>

  const Slash: CodeUnit := 0x2F
  const Underscore: CodeUnit := 0x5F

  /** A literal of the source, one code unit per character (every literal
      used here is ASCII). */
  function Lit(s: string): (r: JsString)
    requires forall i | 0 <= i < |s| :: s[i] as int < 0x80
    ensures |r| == |s|
    ensures forall i | 0 <= i < |s| :: r[i] as int == s[i] as int
  {
    seq(|s|, i requires 0 <= i < |s| => s[i] as int as CodeUnit)
  }

  // ---------------------------------------------------------------------
  // Filename sanitising
  // ---------------------------------------------------------------------

  /** The class `[a-zA-Z0-9.-]` of the regular expression. */
  predicate Allowed(u: CodeUnit) {
    || (0x61 <= u <= 0x7A)   // a-z
    || (0x41 <= u <= 0x5A)   // A-Z
    || (0x30 <= u <= 0x39)   // 0-9
    || u == 0x2E             // .
    || u == 0x2D             // -
  }

  /** The code units a sanitised filename consists of: `[a-zA-Z0-9._-]`. */
  predicate Safe(u: CodeUnit) {
    Allowed(u) || u == Underscore
  }

  /** `filename.replace(/[^a-zA-Z0-9.-]/g, "_")`: every code unit outside the
      class becomes an underscore, every other one stays. */
  function Sanitize(filename: JsString): (r: JsString)
    ensures |r| == |filename|
    ensures forall i | 0 <= i < |r| :: Safe(r[i])
    ensures forall i | 0 <= i < |r| :: Allowed(filename[i]) ==> r[i] == filename[i]
    ensures forall i | 0 <= i < |r| :: !Allowed(filename[i]) ==> r[i] == Underscore
  {
    seq(|filename|, i requires 0 <= i < |filename| => if Allowed(filename[i]) then filename[i] else Underscore)
  }

  /** A sanitised filename has no `/`, so it cannot add a path level. */
  lemma SanitizedHasNoSlash(filename: JsString)
    ensures Slash !in Sanitize(filename)
  {
  }

  /** Sanitising is idempotent. */
  lemma SanitizeIdempotent(filename: JsString)
    ensures Sanitize(Sanitize(filename)) == Sanitize(filename)
  {
    var once := Sanitize(filename);
    var twice := Sanitize(once);
    forall i | 0 <= i < |once| ensures twice[i] == once[i] {
      if !Allowed(once[i]) {
        assert once[i] == Underscore;
      }
    }
  }

  /** A filename comes out unchanged exactly when it already consists of
      `[a-zA-Z0-9._-]`. */
  lemma SanitizeFixpoint(filename: JsString)
    ensures Sanitize(filename) == filename <==> forall i | 0 <= i < |filename| :: Safe(filename[i])
  {
    var r := Sanitize(filename);
    if forall i | 0 <= i < |filename| :: Safe(filename[i]) {
      forall i | 0 <= i < |filename| ensures r[i] == filename[i] {
        if !Allowed(filename[i]) {
          assert filename[i] == Underscore;
        }
      }
    }
  }

  // ---------------------------------------------------------------------
  // Decimal rendering of the timestamp
  // ---------------------------------------------------------------------

  predicate IsDigit(u: CodeUnit) { 0x30 <= u <= 0x39 }

  function DigitUnit(d: nat): (u: CodeUnit)
    requires d < 10
    ensures IsDigit(u) && u as int - 0x30 == d
  {
    (0x30 + d) as CodeUnit
  }

  /** `${n}` for a non-negative integer: its decimal digits, with no leading
      zero. */
  function Decimal(n: nat): (r: JsString)
    ensures |r| >= 1
    ensures forall i | 0 <= i < |r| :: IsDigit(r[i])
    ensures |r| > 1 ==> r[0] != 0x30
  {
    if n < 10 then [DigitUnit(n)]
    else Decimal(n / 10) + [DigitUnit(n % 10)]
  }

  /** The number a string of decimal digits denotes. */
  function DigitsValue(s: JsString): nat
    requires forall i | 0 <= i < |s| :: IsDigit(s[i])
  {
    if s == [] then 0
    else
      assert IsDigit(s[|s| - 1]);
      DigitsValue(s[..|s| - 1]) * 10 + (s[|s| - 1] as int - 0x30)
  }

  /** The timestamp can be read back from its decimal form. */
  lemma {:induction false} DecimalRoundTrip(n: nat)
    ensures DigitsValue(Decimal(n)) == n
  {
    if n >= 10 {
      DecimalRoundTrip(n / 10);
      var r := Decimal(n);
      assert r[..|r| - 1] == Decimal(n / 10);
    }
  }

  // ---------------------------------------------------------------------
  // Path segments
  // ---------------------------------------------------------------------

  /** `s.split("/")`: the pieces between slashes, in order; there is always at
      least one, and `k` slashes give `k + 1` pieces. */
  function Segments(s: JsString): (r: seq<JsString>)
    ensures |r| >= 1
  {
    if s == [] then [[]]
    else
      var init := Segments(s[..|s| - 1]);
      var u := s[|s| - 1];
      if u == Slash then init + [[]]
      else init[..|init| - 1] + [init[|init| - 1] + [u]]
  }

  /** A string without a slash is a single segment. */
  lemma {:induction false} SegmentsOfPlain(s: JsString)
    requires Slash !in s
    ensures Segments(s) == [s]
  {
    if s != [] {
      SegmentsOfPlain(s[..|s| - 1]);
      assert s[..|s| - 1] + [s[|s| - 1]] == s;
    }
  }

  /** How `Segments` grows by one code unit: a slash opens a new, empty
      segment; any other unit extends the last one. */
  lemma SegmentsSnoc(s: JsString, u: CodeUnit)
    ensures var init := Segments(s);
      Segments(s + [u]) == if u == Slash then init + [[]] else init[..|init| - 1] + [init[|init| - 1] + [u]]
  {
    assert (s + [u])[..|s|] == s;
  }

  /** The growth step of `Segments` commutes with putting segments in front. */
  lemma GrowAfter(front: seq<JsString>, init: seq<JsString>, u: CodeUnit)
    requires |init| >= 1
    ensures var all := front + init;
      && all[..|all| - 1] + [all[|all| - 1] + [u]] == front + (init[..|init| - 1] + [init[|init| - 1] + [u]])
      && all + [[]] == front + (init + [[]])
  {
  }

  /** Splitting at a slash: the segments of `a + "/" + b` are those of `a`
      followed by those of `b`. */
  lemma {:induction false} SegmentsJoin(a: JsString, b: JsString)
    ensures Segments(a + [Slash] + b) == Segments(a) + Segments(b)
    decreases |b|
  {
    if b == [] {
      SegmentsSnoc(a, Slash);
      assert a + [Slash] + b == a + [Slash];
    } else {
      var b', u := b[..|b| - 1], b[|b| - 1];
      assert b == b' + [u];
      assert a + [Slash] + b == (a + [Slash] + b') + [u];
      SegmentsJoin(a, b');
      SegmentsSnoc(a + [Slash] + b', u);
      SegmentsSnoc(b', u);
      GrowAfter(Segments(a), Segments(b'), u);
    }
  }

  // ---------------------------------------------------------------------
  // The key builders
  // ---------------------------------------------------------------------

  /** The name `generateKey` gives the file: the timestamp, an underscore and
      the sanitised filename. */
  function StoredName(now: nat, filename: JsString): JsString {
    Decimal(now) + [Underscore] + Sanitize(filename)
  }

  /** `generateKey`: `workspaces/<workspace>/users/<user>/<now>_<sanitised>`. */
  function GenerateKey(workspaceId: JsString, userId: JsString, filename: JsString, now: nat): (key: JsString)
    ensures |key| > |StoredName(now, filename)| && key[|key| - |StoredName(now, filename)|..] == StoredName(now, filename)
    ensures |key| > 11 && key[..11] == Lit("workspaces/")
  {
    Lit("workspaces/") + workspaceId + Lit("/users/") + userId + Lit("/") + StoredName(now, filename)
  }

  lemma StoredNameIsOneSegment(now: nat, filename: JsString)
    ensures Slash !in StoredName(now, filename)
  {
    SanitizedHasNoSlash(filename);
  }

  /** Appending a slash and a piece without a slash adds that piece as one
      more segment. */
  lemma PlainAfter(p: JsString, x: JsString)
    requires Slash !in x
    ensures Segments(p + [Slash] + x) == Segments(p) + [x]
  {
    SegmentsJoin(p, x);
    SegmentsOfPlain(x);
  }

  /** `workspaces/<a>/<b>/<c>`, taken apart. */
  lemma ThreeLevels(a: JsString, b: JsString, c: JsString)
    requires Slash !in a && Slash !in b && Slash !in c
    ensures Segments(Lit("workspaces") + [Slash] + a + [Slash] + b + [Slash] + c) == [Lit("workspaces"), a, b, c]
  {
    var w := Lit("workspaces");
    assert Slash !in w;
    SegmentsOfPlain(w);
    PlainAfter(w, a);
    PlainAfter(w + [Slash] + a, b);
    PlainAfter(w + [Slash] + a + [Slash] + b, c);
  }

  /** Proof helper only: the key with each literal split at its slashes, so
      that the segment lemmas can take it apart. */
  lemma KeyShape(workspaceId: JsString, userId: JsString, filename: JsString, now: nat)
    ensures GenerateKey(workspaceId, userId, filename, now)
         == Lit("workspaces") + [Slash] + workspaceId + [Slash] + Lit("users") + [Slash] + userId + [Slash] + StoredName(now, filename)
  {
  }

  /** The key reads back into its parts: when neither id contains a slash it
      has exactly five segments, `workspaces`, the workspace id, `users`, the
      user id and the stored name; only the filename is sanitised. */
  lemma GenerateKeySegments(workspaceId: JsString, userId: JsString, filename: JsString, now: nat)
    requires Slash !in workspaceId && Slash !in userId
    ensures Segments(GenerateKey(workspaceId, userId, filename, now))
         == [Lit("workspaces"), workspaceId, Lit("users"), userId, StoredName(now, filename)]
  {
    var u := Lit("users");
    assert Slash !in u;
    KeyShape(workspaceId, userId, filename, now);
    ThreeLevels(workspaceId, u, userId);
    StoredNameIsOneSegment(now, filename);
    PlainAfter(Lit("workspaces") + [Slash] + workspaceId + [Slash] + u + [Slash] + userId, StoredName(now, filename));
  }

  /** Whatever the ids contain, the last segment of the key is the stored
      name: the sanitised filename cannot split it. */
  lemma GenerateKeyLastSegment(workspaceId: JsString, userId: JsString, filename: JsString, now: nat)
    ensures var segs := Segments(GenerateKey(workspaceId, userId, filename, now));
      |segs| > 0 && segs[|segs| - 1] == StoredName(now, filename)
  {
    KeyShape(workspaceId, userId, filename, now);
    StoredNameIsOneSegment(now, filename);
    PlainAfter(Lit("workspaces") + [Slash] + workspaceId + [Slash] + Lit("users") + [Slash] + userId, StoredName(now, filename));
  }

  /** The last segment of the key holds the timestamp, which reads back, an
      underscore and the sanitised filename. */
  lemma StoredNameParts(now: nat, filename: JsString)
    ensures var name, d := StoredName(now, filename), Decimal(now);
      && name[..|d|] == d
      && name[|d|] == Underscore
      && name[|d| + 1..] == Sanitize(filename)
      && DigitsValue(name[..|d|]) == now
  {
    DecimalRoundTrip(now);
    var name, d := StoredName(now, filename), Decimal(now);
    assert name[..|d|] == d;
    assert name[|d| + 1..] == Sanitize(filename);
  }

  /** `generateJobOutputKey`:
      `workspaces/<workspace>/jobs/<job>/output/<filename>`, with nothing
      sanitised. */
  function GenerateJobOutputKey(workspaceId: JsString, jobId: JsString, filename: JsString): (key: JsString)
    ensures |key| >= |filename| && key[|key| - |filename|..] == filename
    ensures |key| > 11 && key[..11] == Lit("workspaces/")
  {
    Lit("workspaces/") + workspaceId + Lit("/jobs/") + jobId + Lit("/output/") + filename
  }

  /** Proof helper only: the job output key with each literal split at its
      slashes. */
  lemma JobOutputKeyShape(workspaceId: JsString, jobId: JsString, filename: JsString)
    ensures GenerateJobOutputKey(workspaceId, jobId, filename)
         == Lit("workspaces") + [Slash] + workspaceId + [Slash] + Lit("jobs") + [Slash] + jobId + [Slash] + Lit("output") + [Slash] + filename
  {
  }

  /** The job output key reads back into `workspaces`, the workspace id,
      `jobs`, the job id, `output` and the segments of the filename as given:
      the filename is the last segment exactly when it contains no slash,
      and each slash in it adds a level to the path. */
  lemma GenerateJobOutputKeySegments(workspaceId: JsString, jobId: JsString, filename: JsString)
    requires Slash !in workspaceId && Slash !in jobId
    ensures Segments(GenerateJobOutputKey(workspaceId, jobId, filename))
         == [Lit("workspaces"), workspaceId, Lit("jobs"), jobId, Lit("output")] + Segments(filename)
    ensures |Segments(GenerateJobOutputKey(workspaceId, jobId, filename))| == 6 <==> Slash !in filename
  {
    JobOutputSegments(workspaceId, jobId, filename);
    SegmentsCount(filename);
  }

  lemma JobOutputSegments(workspaceId: JsString, jobId: JsString, filename: JsString)
    requires Slash !in workspaceId && Slash !in jobId
    ensures Segments(GenerateJobOutputKey(workspaceId, jobId, filename))
         == [Lit("workspaces"), workspaceId, Lit("jobs"), jobId, Lit("output")] + Segments(filename)
  {
    var j, o := Lit("jobs"), Lit("output");
    assert Slash !in j && Slash !in o;
    var p3 := Lit("workspaces") + [Slash] + workspaceId + [Slash] + j + [Slash] + jobId;
    JobOutputKeyShape(workspaceId, jobId, filename);
    ThreeLevels(workspaceId, j, jobId);
    var head := [Lit("workspaces"), workspaceId, j, jobId, o];
    assert Segments(p3 + [Slash] + o) == head by {
      PlainAfter(p3, o);
    }
    assert Segments(GenerateJobOutputKey(workspaceId, jobId, filename)) == head + Segments(filename) by {
      SegmentsJoin(p3 + [Slash] + o, filename);
    }
  }

  /** A string is a single segment exactly when it has no slash. */
  lemma {:induction false} SegmentsCount(s: JsString)
    ensures |Segments(s)| == 1 <==> Slash !in s
  {
    if Slash in s {
      var i :| 0 <= i < |s| && s[i] == Slash;
      assert s == s[..i] + [Slash] + s[i + 1..];
      SegmentsJoin(s[..i], s[i + 1..]);
    } else {
      SegmentsOfPlain(s);
    }
  }
}
