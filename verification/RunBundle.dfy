/** Run bundles: the writer's ordered renames, which may fail or stop anywhere, against the reader's integrity checks. */
module RunBundle {
  import opened LogicalSteps
  import opened Utf8

  datatype Kind = Events | Result | Sig | Manifest

  /** A file of the run directory: one of the four of a bundle, or the temporary file that becomes it. */
  datatype Name = Final(k: Kind) | Temp(k: Kind)
  type Dir = map<Name, Bytes>
  type Finals = map<Kind, Bytes>

  const KINDS: set<Kind> := {Events, Result, Sig, Manifest}

  function FinalsOf(d: Dir): Finals { map k | k in KINDS && Final(k) in d :: d[Final(k)] }

  lemma TempIsNoFinal(d: Dir, k: Kind, data: Bytes)
    ensures FinalsOf(d[Temp(k) := data]) == FinalsOf(d)
  {
  }

  // ----- the manifest

  datatype Spec = Spec(sha: Bytes, byteLength: nat)
  datatype Record = Record(meta: Bytes, result: Spec, events: Spec, sig: Option<Spec>)
  datatype Parsed = SyntaxError | Invalid | Valid(record: Record)

  /** SHA-256 and the JSON text of manifests, with schema validation. */
  datatype Codec = Codec(sha: Bytes -> Bytes, text: Record -> Bytes, parse: Bytes -> Parsed)

  ghost predicate Faithful(c: Codec) {
    && (forall a, b :: c.sha(a) == c.sha(b) ==> a == b)
    && (forall r :: c.parse(c.text(r)) == Valid(r))
  }

  datatype Bundle = Bundle(meta: Bytes, events: Bytes, result: Bytes, sig: Option<Bytes>)

  function SpecOf(c: Codec, payload: Bytes): Spec { Spec(c.sha(payload), |payload|) }

  function BuildRecord(c: Codec, b: Bundle): Record {
    Record(b.meta, SpecOf(c, LfCanonical(b.result)), SpecOf(c, LfCanonical(b.events)),
           match b.sig case None => None case Some(bytes) => Some(SpecOf(c, bytes)))
  }

  // ----- the reader

  datatype Verdict = Accepted(record: Record) | Rejected(code: string, file: Kind)

  /** What the reader measures: result and events with canonical line endings. */
  function Payload(f: Finals, k: Kind): Bytes
    requires k in f
  {
    if k.Result? || k.Events? then LfCanonical(f[k]) else f[k]
  }

  function CheckArtifact(c: Codec, f: Finals, k: Kind, spec: Spec, missing: string): Option<Verdict> {
    if k !in f then Some(Rejected(missing, k)) else
    var payload := Payload(f, k);
    if |payload| != spec.byteLength then Some(Rejected("ARTIFACT_LENGTH_MISMATCH", k))
    else if c.sha(payload) != spec.sha then Some(Rejected("ARTIFACT_INTEGRITY_MISMATCH", k))
    else None
  }

  /** The integrity checks in the reader's order: manifest, result, events, and for signed records the signature. */
  function Integrity(c: Codec, f: Finals): Verdict {
    if Manifest !in f then Rejected("MISSING_AGENT_RUN_MANIFEST", Manifest) else
    match c.parse(f[Manifest])
    case SyntaxError => Rejected("AGENT_RUN_JSON_SYNTAX", Manifest)
    case Invalid => Rejected("AGENT_RUN_INVALID", Manifest)
    case Valid(record) =>
      var r := CheckArtifact(c, f, Result, record.result, "MISSING_WORKFLOW_RESULT");
      if r.Some? then r.value else
      var e := CheckArtifact(c, f, Events, record.events, "MISSING_EVENTS");
      if e.Some? then e.value else
      var s := if record.sig.None? then None
               else CheckArtifact(c, f, Sig, record.sig.value, "MISSING_WORKFLOW_RESULT_SIGNATURE");
      if s.Some? then s.value else Accepted(record)
  }

  predicate Accepts(c: Codec, f: Finals) { Integrity(c, f).Accepted? }

  /** Result and events are those of the record up to line endings, the signature byte for byte. */
  ghost predicate Describes(c: Codec, record: Record, f: Finals) {
    && Result in f && Events in f
    && record.result == SpecOf(c, LfCanonical(f[Result])) && record.events == SpecOf(c, LfCanonical(f[Events]))
    && (record.sig.Some? ==> Sig in f && record.sig.value == SpecOf(c, f[Sig]))
  }

  /** The reader accepts a directory iff its manifest is well formed and describes the other files. */
  lemma AcceptsMeans(c: Codec, f: Finals)
    ensures Accepts(c, f) <==> Manifest in f && c.parse(f[Manifest]).Valid? && Describes(c, c.parse(f[Manifest]).record, f)
  {
  }

  /** The artifact is there and is what the record says. */
  ghost predicate Fits(c: Codec, f: Finals, k: Kind, spec: Spec) {
    k in f && spec == SpecOf(c, Payload(f, k))
  }

  ghost predicate WrongLength(f: Finals, k: Kind, spec: Spec) { k in f && |Payload(f, k)| != spec.byteLength }

  ghost predicate WrongDigest(c: Codec, f: Finals, k: Kind, spec: Spec) {
    k in f && |Payload(f, k)| == spec.byteLength && c.sha(Payload(f, k)) != spec.sha
  }

  /** A fault of the manifest, by its cause. */
  lemma ManifestRejection(c: Codec, f: Finals)
    requires Integrity(c, f).Rejected?
    ensures var r := Integrity(c, f);
            && (r.file.Manifest? <==> !(Manifest in f && c.parse(f[Manifest]).Valid?))
            && (r.code == "MISSING_AGENT_RUN_MANIFEST" <==> Manifest !in f)
            && (r.code == "AGENT_RUN_JSON_SYNTAX" <==> Manifest in f && c.parse(f[Manifest]).SyntaxError?)
            && (r.code == "AGENT_RUN_INVALID" <==> Manifest in f && c.parse(f[Manifest]).Invalid?)
  {
  }

  /** The first artifact at fault, in the order result, events, signature. */
  ghost predicate FirstAtFault(c: Codec, f: Finals, record: Record, k: Kind) {
    match k
    case Result => !Fits(c, f, Result, record.result)
    case Events => Fits(c, f, Result, record.result) && !Fits(c, f, Events, record.events)
    case Sig => Fits(c, f, Result, record.result) && Fits(c, f, Events, record.events)
                && record.sig.Some? && !Fits(c, f, Sig, record.sig.value)
    case Manifest => false
  }

  function SpecFor(record: Record, k: Kind): Spec {
    match k
    case Result => record.result
    case Events => record.events
    case Sig => (match record.sig case Some(s) => s case None => Spec([], 0))
    case Manifest => Spec([], 0)
  }

  /** With a readable manifest, the rejection names the first artifact at fault, and its code says what is wrong with it. */
  lemma RejectionMeans(c: Codec, f: Finals)
    requires Integrity(c, f).Rejected? && Manifest in f && c.parse(f[Manifest]).Valid?
    ensures var r, record := Integrity(c, f), c.parse(f[Manifest]).record;
            && FirstAtFault(c, f, record, r.file)
            && (r.code == "ARTIFACT_LENGTH_MISMATCH" <==> WrongLength(f, r.file, SpecFor(record, r.file)))
            && (r.code == "ARTIFACT_INTEGRITY_MISMATCH" <==> WrongDigest(c, f, r.file, SpecFor(record, r.file)))
            && (r.code == "MISSING_WORKFLOW_RESULT" <==> r.file.Result? && Result !in f)
            && (r.code == "MISSING_EVENTS" <==> r.file.Events? && Events !in f)
            && (r.code == "MISSING_WORKFLOW_RESULT_SIGNATURE" <==> r.file.Sig? && Sig !in f)
  {
  }

  // ----- the writer's stages

  function Order(b: Bundle): (r: seq<Kind>)
    ensures |r| == (if b.sig.Some? then 4 else 3) && r[0] == Events && r[1] == Result && r[|r| - 1] == Manifest
    ensures forall i, j :: 0 <= i < j < |r| ==> r[i] != r[j]
  {
    if b.sig.Some? then [Events, Result, Sig, Manifest] else [Events, Result, Manifest]
  }

  function Content(c: Codec, b: Bundle, k: Kind): Bytes {
    match k
    case Events => b.events
    case Result => b.result
    case Sig => if b.sig.Some? then b.sig.value else []
    case Manifest => c.text(BuildRecord(c, b))
  }

  /** The prior files with the first j files of the bundle in place. */
  function Installed(c: Codec, prior: Finals, b: Bundle, j: nat): Finals
    requires j <= |Order(b)|
  {
    if j == 0 then prior else Installed(c, prior, b, j - 1)[Order(b)[j - 1] := Content(c, b, Order(b)[j - 1])]
  }

  function Complete(c: Codec, prior: Finals, b: Bundle): Finals { Installed(c, prior, b, |Order(b)|) }

  ghost function Elements(s: seq<Kind>): set<Kind> { set k | k in s }

  /** What may be missing when j files were put in place: the next one, and after a signed run's rollback any of the j. */
  ghost function Removable(b: Bundle, j: nat): set<Kind> {
    if j >= |Order(b)| then {} else {Order(b)[j]} + if b.sig.Some? then Elements(Order(b)[..j]) else {}
  }

  /** After j files are in place, the files in gone were unlinked. */
  ghost predicate At(c: Codec, prior: Finals, b: Bundle, j: nat, gone: set<Kind>, f: Finals) {
    j <= |Order(b)| && f == Installed(c, prior, b, j) - gone && gone <= Removable(b, j)
  }

  /** The states of the four files that a run of the writer can pass through, stop in or leave behind. */
  ghost predicate Reachable(c: Codec, prior: Finals, b: Bundle, f: Finals) {
    exists j: nat, gone :: At(c, prior, b, j, gone, f)
  }

  /** File j is being written: it is as before or gone. */
  ghost predicate HaltedAt(c: Codec, prior: Finals, b: Bundle, j: nat, f: Finals) {
    j < |Order(b)| && f in {Installed(c, prior, b, j), Installed(c, prior, b, j) - {Order(b)[j]}}
  }

  // ----- the file system

  /** What the next operation does: fail, or succeed; a write first leaves some bytes behind in either case if started. */
  datatype Outcome = Outcome(ok: bool, started: bool, partial: nat)

  ghost predicate AllGood(plan: seq<Outcome>) { forall i :: 0 <= i < |plan| ==> plan[i].ok }

  // ----- what the writer does to the directory, operation by operation

  datatype Op = WroteTemp(k: Kind, ok: bool) | Renamed(k: Kind, ok: bool) | Unlinked(name: Name, ok: bool)

  /** Replacing a file: rename, and if that fails on an existing file, unlink it and rename once more. */
  ghost predicate ReplaceOps(k: Kind, existed: bool, ops: seq<Op>, ok: bool) {
    if ok && ops == [Renamed(k, true)] then true
    else if !existed then !ok && ops == [Renamed(k, false)]
    else (!ok && ops == [Renamed(k, false), Unlinked(Final(k), false)])
         || ops == [Renamed(k, false), Unlinked(Final(k), true), Renamed(k, ok)]
  }

  /** The replacement, and if that fails the temporary file is unlinked. */
  ghost predicate InstallOps(k: Kind, existed: bool, ops: seq<Op>, ok: bool) {
    if ok then ReplaceOps(k, existed, ops, true)
    else ops != [] && ReplaceOps(k, existed, ops[..|ops| - 1], false) && ops[|ops| - 1].Unlinked? && ops[|ops| - 1].name == Temp(k)
  }

  /** Writing a file: the temporary file, and if that is written, its installation. */
  ghost predicate WriteOps(k: Kind, existed: bool, ops: seq<Op>, ok: bool) {
    ops != [] && if ops[0] == WroteTemp(k, true) then InstallOps(k, existed, ops[1..], ok) else !ok && ops == [WroteTemp(k, false)]
  }

  /** The files to roll back: those present, last written first. */
  function Tried(files: Dir, written: seq<Kind>): seq<Name> {
    if written == [] then []
    else Tried(files, written[1..]) + if Final(written[0]) in files then [Final(written[0])] else []
  }

  /** Every one of the names was tried once, in order, and nothing else was done. */
  ghost predicate UnlinkOps(ops: seq<Op>, names: seq<Name>) {
    |ops| == |names| && forall i :: 0 <= i < |ops| ==> ops[i].Unlinked? && ops[i].name == names[i]
  }

  /** f is start without the names whose unlinking succeeded. */
  ghost predicate Without(f: Dir, start: Dir, ops: seq<Op>) {
    && (forall n :: n in f <==> n in start && Unlinked(n, true) !in ops)
    && (forall n :: n in f ==> f[n] == start[n])
  }

  /** The temporary file holds the beginning of the data. */
  ghost predicate Partly(f: Dir, start: Dir, k: Kind, data: Bytes) {
    exists n :: 0 <= n <= |data| && f == start[Temp(k) := data[..n]]
  }

  ghost predicate SameFinals(trace: seq<Dir>, mark: nat, f: Finals) {
    forall i :: mark <= i < |trace| ==> FinalsOf(trace[i]) == f
  }

  ghost predicate SameBut(f: Dir, g: Dir, k: Kind) {
    forall n :: n != Final(k) && n != Temp(k) ==> (n in f <==> n in g) && (n in f ==> f[n] == g[n])
  }

  ghost predicate LastFailed(ops: seq<Op>) { ops != [] && !ops[|ops| - 1].ok }

  lemma WrittenOps(k: Kind, existed: bool, r: seq<Op>, ok: bool)
    requires InstallOps(k, existed, r, ok)
    ensures WriteOps(k, existed, [WroteTemp(k, true)] + r, ok)
    ensures LastFailed(r) ==> LastFailed([WroteTemp(k, true)] + r)
  {
    assert ([WroteTemp(k, true)] + r)[1..] == r;
  }

  lemma LogAfter(log: seq<Op>, w: Op, r: seq<Op>)
    ensures log + [w] + r == log + ([w] + r)
  {
  }

  lemma FailedOps(k: Kind, existed: bool, r: seq<Op>, u: bool)
    requires ReplaceOps(k, existed, r, false)
    ensures InstallOps(k, existed, r + [Unlinked(Temp(k), u)], false)
  {
    var ops := r + [Unlinked(Temp(k), u)];
    assert ops[..|ops| - 1] == r;
  }

  /** What writing one file, or replacing it, may do to the files. */
  ghost predicate Wrote(f: Dir, start: Dir, k: Kind, data: Bytes, ok: bool) {
    && SameBut(f, start, k)
    && (ok ==> FinalsOf(f) == FinalsOf(start)[k := data] && Temp(k) !in f)
    && (!ok ==> FinalsOf(f) == FinalsOf(start) || FinalsOf(f) == FinalsOf(start) - {k})
  }

  /** The states passed through since the mark have the file as before, gone or new, and the others as before. */
  ghost predicate Passed(trace: seq<Dir>, mark: nat, f: Finals, k: Kind, data: Bytes) {
    forall i :: mark <= i < |trace| ==> FinalsOf(trace[i]) in {f, f - {k}, f[k := data]}
  }

  lemma PassedAfter(before: seq<Dir>, middle: seq<Dir>, after: seq<Dir>, f: Finals, k: Kind, data: Bytes)
    requires before <= middle && middle <= after && SameFinals(middle, |before|, f) && Passed(after, |middle|, f, k, data)
    ensures Passed(after, |before|, f, k, data)
  {
    forall i | |before| <= i < |after| ensures FinalsOf(after[i]) in {f, f - {k}, f[k := data]} {
      if i < |middle| { assert after[i] == middle[i]; }
    }
  }

  lemma PassedBefore(middle: seq<Dir>, after: seq<Dir>, mark: nat, f: Finals, g: Finals, k: Kind, data: Bytes)
    requires Passed(middle, mark, f, k, data) && middle <= after && SameFinals(after, |middle|, g) && (g == f || g == f - {k})
    ensures Passed(after, mark, f, k, data)
  {
    forall i | mark <= i < |after| ensures FinalsOf(after[i]) in {f, f - {k}, f[k := data]} {
      if i < |middle| { assert after[i] == middle[i]; }
    }
  }

  lemma WroteAfter(f: Dir, middle: Dir, start: Dir, k: Kind, data: Bytes, ok: bool)
    requires Wrote(f, middle, k, data, ok) && FinalsOf(middle) == FinalsOf(start) && SameBut(middle, start, k)
    ensures Wrote(f, start, k, data, ok)
  {
  }

  /** Writing the temporary file and installing it, together. */
  lemma InstalledAfter(start: Dir, middle: Dir, f: Dir, before: seq<Dir>, passed: seq<Dir>, trace: seq<Dir>, k: Kind, data: Bytes, ok: bool)
    requires Wrote(f, middle, k, data, ok) && FinalsOf(middle) == FinalsOf(start) && SameBut(middle, start, k)
    requires before <= passed && passed <= trace
    requires SameFinals(passed, |before|, FinalsOf(start)) && Passed(trace, |passed|, FinalsOf(start), k, data)
    ensures Wrote(f, start, k, data, ok) && Passed(trace, |before|, FinalsOf(start), k, data)
  {
    WroteAfter(f, middle, start, k, data, ok);
    PassedAfter(before, passed, trace, FinalsOf(start), k, data);
  }

  lemma FinalsPut(f: Dir, g: Dir, k: Kind, data: Bytes)
    requires g == (f - {Temp(k)})[Final(k) := data]
    ensures FinalsOf(g) == FinalsOf(f)[k := data]
  {
    var a, b := FinalsOf(g), FinalsOf(f)[k := data];
    forall x: Kind ensures (x in a <==> x in b) && (x in a ==> a[x] == b[x]) {
      FinalsAt(f, x);
      FinalsAt(g, x);
    }
    assert a == b;
  }

  lemma FinalsAt(d: Dir, k: Kind)
    ensures k in FinalsOf(d) <==> Final(k) in d
    ensures k in FinalsOf(d) ==> FinalsOf(d)[k] == d[Final(k)]
  {
    match k
    case Events =>
    case Result =>
    case Sig =>
    case Manifest =>
  }

  lemma SamePut(f: Dir, g: Dir, k: Kind, data: Bytes)
    requires g == (f - {Temp(k)})[Final(k) := data]
    ensures SameBut(g, f, k) && Temp(k) !in g
  {
  }

  lemma RenamedFiles(f: Dir, g: Dir, k: Kind, data: Bytes)
    requires g == (f - {Temp(k)})[Final(k) := data]
    ensures Wrote(g, f, k, data, true)
  {
    FinalsPut(f, g, k, data);
    SamePut(f, g, k, data);
  }

  lemma UnlinkedFiles(f: Dir, g: Dir, k: Kind, data: Bytes)
    requires g == f - {Final(k)}
    ensures Wrote(g, f, k, data, false) && FinalsOf(g) == FinalsOf(f) - {k}
  {
    assert FinalsOf(g) == FinalsOf(f) - {k};
  }

  /** Renaming after unlinking gives what renaming alone would have given. */
  lemma RenamedLater(f: Dir, g: Dir, h: Dir, k: Kind, data: Bytes)
    requires g == f - {Final(k)} && Wrote(h, g, k, data, true)
    ensures Wrote(h, f, k, data, true)
  {
    UnlinkedFiles(f, g, k, data);
    assert FinalsOf(h) == FinalsOf(f)[k := data];
  }

  lemma DiscardTemp(f: Dir, start: Dir, k: Kind, data: Bytes)
    requires Wrote(f, start, k, data, false)
    ensures Wrote(f - {Temp(k)}, start, k, data, false) && FinalsOf(f - {Temp(k)}) == FinalsOf(f)
  {
    assert FinalsOf(f - {Temp(k)}) == FinalsOf(f);
  }

  ghost predicate AllLack(trace: seq<Dir>, mark: nat, start: Finals, written: seq<Kind>) {
    forall i :: mark <= i < |trace| ==> Lacks(FinalsOf(trace[i]), start, written)
  }

  ghost predicate AllOk(ops: seq<Op>) { forall i :: 0 <= i < |ops| ==> ops[i].ok }

  lemma UnlinkedMore(f: Dir, g: Dir, k: Kind, start: Finals, written: seq<Kind>, trace: seq<Dir>, mark: nat)
    requires g == f - {Final(k)} && Lacks(FinalsOf(f), start, written) && k in written && AllLack(trace, mark, start, written)
    ensures Lacks(FinalsOf(g), start, written) && AllLack(trace + [g], mark, start, written)
  {
    assert FinalsOf(g) == FinalsOf(f) - {k};
    OneMoreGone(FinalsOf(f), start, written, k);
  }

  /** The files from position i on were tried; the others are as at the start. */
  ghost predicate Rolled(f: Dir, start: Dir, ops: seq<Op>, written: seq<Kind>, i: nat) {
    && i <= |written| && UnlinkOps(ops, Tried(start, written[i..])) && Without(f, start, ops)
    && forall j :: 0 <= j < i ==> Final(written[j]) in start ==> Final(written[j]) in f
  }

  lemma RollSkips(f: Dir, start: Dir, ops: seq<Op>, written: seq<Kind>, i: nat)
    requires Rolled(f, start, ops, written, i + 1) && Final(written[i]) !in f
    ensures Rolled(f, start, ops, written, i)
  {
    assert written[i..][1..] == written[i + 1..];
    assert Tried(start, written[i..]) == Tried(start, written[i + 1..]) + [];
  }

  lemma RollTries(f: Dir, start: Dir, ops: seq<Op>, written: seq<Kind>, i: nat, gone: bool)
    requires forall x, y :: 0 <= x < y < |written| ==> written[x] != written[y]
    requires Rolled(f, start, ops, written, i + 1) && Final(written[i]) in f
    ensures Rolled(if gone then f - {Final(written[i])} else f, start, ops + [Unlinked(Final(written[i]), gone)], written, i)
  {
    var more := ops + [Unlinked(Final(written[i]), gone)];
    assert written[i..][1..] == written[i + 1..];
    assert Tried(start, written[i..]) == Tried(start, written[i + 1..]) + [Final(written[i])];
    forall n ensures Unlinked(n, true) in more <==> Unlinked(n, true) in ops || (gone && n == Final(written[i])) {
      assert Unlinked(n, true) in more ==> Unlinked(n, true) in ops || Unlinked(n, true) == Unlinked(Final(written[i]), gone);
    }
  }

  /** Changing a temporary file changes no other file and shows no new state of the final ones. */
  lemma TempChanged(f: Dir, g: Dir, k: Kind, data: Bytes, passed: seq<Dir>, trace: seq<Dir>, mark: nat)
    requires g == f[Temp(k) := data] && trace == passed + [g] && SameFinals(passed, mark, FinalsOf(f))
    ensures FinalsOf(g) == FinalsOf(f) && SameBut(g, f, k) && SameFinals(trace, mark, FinalsOf(f))
  {
    TempIsNoFinal(f, k, data);
  }

  lemma TempTwice(f: Dir, g: Dir, h: Dir, k: Kind, data: Bytes)
    requires Partly(g, f, k, data) && h == g[Temp(k) := data]
    ensures h == f[Temp(k) := data] && SameBut(h, f, k)
  {
    var n :| 0 <= n <= |data| && g == f[Temp(k) := data[..n]];
  }

  class Directory {
    var files: Dir
    /** Outcomes to come; once they are used up everything succeeds. */
    var plan: seq<Outcome>
    /** Every state of the files so far: a crash leaves the directory in one of them. */
    ghost var trace: seq<Dir>
    /** Every operation so far. */
    ghost var log: seq<Op>

    constructor (files: Dir, plan: seq<Outcome>)
      ensures this.files == files && this.plan == plan && trace == [files] && log == []
    {
      this.files, this.plan, this.trace, this.log := files, plan, [files], [];
    }

    method Next() returns (o: Outcome)
      modifies this`plan
      ensures old(AllGood(plan)) ==> o.ok && AllGood(plan)
    {
      if plan == [] { return Outcome(true, true, 0); }
      o := plan[0];
      plan := plan[1..];
    }

    /** writeFileSync of the temporary file; a failure may leave the beginning of it behind. */
    method WriteTemp(k: Kind, data: Bytes) returns (ok: bool)
      modifies this
      ensures old(trace) <= trace && SameFinals(trace, |old(trace)|, FinalsOf(old(files)))
      ensures FinalsOf(files) == FinalsOf(old(files)) && SameBut(files, old(files), k)
      ensures ok ==> files == old(files)[Temp(k) := data]
      ensures !ok ==> files == old(files) || Partly(files, old(files), k, data)
      ensures log == old(log) + [WroteTemp(k, ok)]
      ensures old(AllGood(plan)) ==> ok && AllGood(plan)
    {
      var o := Next();
      ok := o.ok;
      log := log + [WroteTemp(k, ok)];
      ghost var start, before := files, trace;
      if ok || o.started {
        var n := if o.partial < |data| then o.partial else |data|;
        Put(k, data[..n]);
        TempChanged(start, files, k, data[..n], before, trace, |before|);
        assert Partly(files, start, k, data);
      }
      if ok {
        ghost var middle, passed := files, trace;
        Put(k, data);
        TempChanged(middle, files, k, data, passed, trace, |before|);
        TempTwice(start, middle, files, k, data);
      }
    }

    method Put(k: Kind, data: Bytes)
      modifies this`files, this`trace
      ensures files == old(files)[Temp(k) := data] && trace == old(trace) + [files]
    {
      files := files[Temp(k) := data];
      trace := trace + [files];
    }

    method Rename(k: Kind) returns (ok: bool)
      modifies this
      ensures !ok ==> files == old(files) && trace == old(trace)
      ensures ok ==> Temp(k) in old(files) && trace == old(trace) + [files]
                     && files == (old(files) - {Temp(k)})[Final(k) := old(files)[Temp(k)]]
                     && FinalsOf(files) == FinalsOf(old(files))[k := old(files)[Temp(k)]]
      ensures log == old(log) + [Renamed(k, ok)]
      ensures old(AllGood(plan)) ==> AllGood(plan) && (Temp(k) in old(files) ==> ok)
    {
      var o := Next();
      ok := o.ok && Temp(k) in files;
      if ok {
        files := (files - {Temp(k)})[Final(k) := files[Temp(k)]];
        trace := trace + [files];
      }
      log := log + [Renamed(k, ok)];
    }

    method Unlink(name: Name) returns (ok: bool)
      modifies this
      ensures !ok ==> files == old(files) && trace == old(trace)
      ensures ok ==> name in old(files) && files == old(files) - {name} && trace == old(trace) + [files]
      ensures log == old(log) + [Unlinked(name, ok)]
      ensures old(AllGood(plan)) ==> AllGood(plan) && (name in old(files) ==> ok)
    {
      var o := Next();
      ok := o.ok && name in files;
      if ok {
        files := files - {name};
        trace := trace + [files];
      }
      log := log + [Unlinked(name, ok)];
    }

    /** Rename, or if that fails on an existing file: unlink it and rename again. */
    method Replace(k: Kind, data: Bytes) returns (ok: bool, ghost ops: seq<Op>)
      requires Temp(k) in files && files[Temp(k)] == data
      modifies this
      ensures old(trace) <= trace && Passed(trace, |old(trace)|, FinalsOf(old(files)), k, data)
      ensures Wrote(files, old(files), k, data, ok) && (!ok ==> Temp(k) in files)
      ensures ReplaceOps(k, Final(k) in old(files), ops, ok) && log == old(log) + ops
      ensures old(AllGood(plan)) ==> ok && AllGood(plan)
    {
      ghost var start := files;
      ok := Rename(k);
      ops := [Renamed(k, ok)];
      if ok {
        RenamedFiles(start, files, k, data);
      } else if Final(k) in files {
        var gone := Unlink(Final(k));
        ops := [Renamed(k, false), Unlinked(Final(k), gone)];
        if gone {
          ghost var middle := files;
          UnlinkedFiles(start, middle, k, data);
          ok := Rename(k);
          ops := [Renamed(k, false), Unlinked(Final(k), true), Renamed(k, ok)];
          if ok {
            RenamedFiles(middle, files, k, data);
            RenamedLater(start, middle, files, k, data);
          }
        }
      }
    }

    /** Unlinking a temporary file, which touches no other file. */
    method Discard(k: Kind) returns (gone: bool)
      requires Temp(k) in files
      modifies this
      ensures old(trace) <= trace && SameFinals(trace, |old(trace)|, FinalsOf(old(files)))
      ensures files == if gone then old(files) - {Temp(k)} else old(files)
      ensures log == old(log) + [Unlinked(Temp(k), gone)]
      ensures old(AllGood(plan)) ==> gone && AllGood(plan)
    {
      ghost var start := files;
      gone := Unlink(Temp(k));
      assert FinalsOf(start - {Temp(k)}) == FinalsOf(start);
    }

    /** The replacement with its cleanup: after a failure the temporary file is unlinked, ignoring a failure of that. */
    method Install(k: Kind, data: Bytes) returns (ok: bool, ghost ops: seq<Op>)
      requires Temp(k) in files && files[Temp(k)] == data
      modifies this
      ensures old(trace) <= trace && Passed(trace, |old(trace)|, FinalsOf(old(files)), k, data)
      ensures Wrote(files, old(files), k, data, ok)
      ensures InstallOps(k, Final(k) in old(files), ops, ok) && log == old(log) + ops
      ensures Temp(k) in files ==> !ok && LastFailed(ops)
      ensures old(AllGood(plan)) ==> ok && AllGood(plan)
    {
      ghost var start, mark := files, |trace|;
      ok, ops := Replace(k, data);
      if !ok && Temp(k) in files {
        DiscardTemp(files, start, k, data);
        ghost var middle, passed := files, trace;
        var gone := Discard(k);
        PassedBefore(passed, trace, mark, FinalsOf(start), FinalsOf(middle), k, data);
        FailedOps(k, Final(k) in start, ops, gone);
        ops := ops + [Unlinked(Temp(k), gone)];
      }
    }

    /** atomicWriteFileSync. */
    method AtomicWrite(k: Kind, data: Bytes) returns (ok: bool, ghost ops: seq<Op>)
      modifies this
      ensures old(trace) <= trace && Passed(trace, |old(trace)|, FinalsOf(old(files)), k, data)
      ensures Wrote(files, old(files), k, data, ok)
      ensures WriteOps(k, Final(k) in old(files), ops, ok) && log == old(log) + ops
      ensures Temp(k) in files ==> !ok && LastFailed(ops)
      ensures old(AllGood(plan)) ==> ok && AllGood(plan)
    {
      ghost var start, before, done := files, trace, log;
      ok := WriteTemp(k, data);
      ops := [WroteTemp(k, ok)];
      if ok {
        ghost var middle, passed, r := files, trace, [];
        ok, r := Install(k, data);
        InstalledAfter(start, middle, files, before, passed, trace, k, data, ok);
        WrittenOps(k, Final(k) in start, r, ok);
        LogAfter(done, WroteTemp(k, true), r);
        ops := [WroteTemp(k, true)] + r;
      }
    }

    /** rollbackSignedFinals: unlink in reverse order whatever is there, ignoring failures. */
    method Rollback(written: seq<Kind>) returns (ghost ops: seq<Op>)
      requires forall i, j :: 0 <= i < j < |written| ==> written[i] != written[j]
      modifies this
      ensures old(trace) <= trace
      ensures AllLack(trace, |old(trace)|, FinalsOf(old(files)), written)
      ensures Lacks(FinalsOf(files), FinalsOf(old(files)), written)
      ensures log == old(log) + ops
      ensures UnlinkOps(ops, Tried(old(files), written)) && Without(files, old(files), ops)
      ensures old(AllGood(plan)) ==> AllGood(plan) && AllOk(ops)
    {
      var i := |written|;
      NothingGone(FinalsOf(files), written);
      ghost var start := files;
      ops := [];
      while i > 0
        invariant 0 <= i <= |written|
        invariant old(trace) <= trace && AllLack(trace, |old(trace)|, FinalsOf(start), written)
        invariant Lacks(FinalsOf(files), FinalsOf(start), written)
        invariant log == old(log) + ops && Rolled(files, start, ops, written, i)
        invariant old(AllGood(plan)) ==> AllGood(plan) && AllOk(ops)
      {
        i := i - 1;
        ghost var before, passed := files, trace;
        if Final(written[i]) in files {
          var gone := Unlink(Final(written[i]));
          RollTries(before, start, ops, written, i, gone);
          ops := ops + [Unlinked(Final(written[i]), gone)];
          if gone {
            UnlinkedMore(before, files, written[i], FinalsOf(start), written, passed, |old(trace)|);
          }
        } else {
          RollSkips(files, start, ops, written, i);
        }
      }
      assert written[0..] == written;
    }
  }

  /** The reader's integrity checks on a directory, with their early returns; nothing is written. */
  method LoadCorpusRun(dir: Directory, c: Codec) returns (r: Verdict)
    ensures r == Integrity(c, FinalsOf(dir.files))
    ensures var f := FinalsOf(dir.files);
            r.Accepted? <==> Manifest in f && c.parse(f[Manifest]).Valid? && Describes(c, c.parse(f[Manifest]).record, f)
  {
    var f := FinalsOf(dir.files);
    if Final(Manifest) !in dir.files {
      return Rejected("MISSING_AGENT_RUN_MANIFEST", Manifest);
    }
    var parsed := c.parse(dir.files[Final(Manifest)]);
    if parsed.SyntaxError? {
      return Rejected("AGENT_RUN_JSON_SYNTAX", Manifest);
    }
    if parsed.Invalid? {
      return Rejected("AGENT_RUN_INVALID", Manifest);
    }
    var record := parsed.record;
    var fault := CheckArtifact(c, f, Result, record.result, "MISSING_WORKFLOW_RESULT");
    if fault.Some? {
      return fault.value;
    }
    fault := CheckArtifact(c, f, Events, record.events, "MISSING_EVENTS");
    if fault.Some? {
      return fault.value;
    }
    if record.sig.Some? {
      fault := CheckArtifact(c, f, Sig, record.sig.value, "MISSING_WORKFLOW_RESULT_SIGNATURE");
      if fault.Some? {
        return fault.value;
      }
    }
    return Accepted(record);
  }

  /** f is start without some of the written files. */
  ghost predicate Lacks(f: Finals, start: Finals, written: seq<Kind>) {
    exists gone: set<Kind> :: f == start - gone && gone <= Elements(written)
  }

  lemma NothingGone(start: Finals, written: seq<Kind>)
    ensures Lacks(start, start, written)
  {
    var gone: set<Kind> := {};
    assert start == start - gone;
  }

  lemma OneMoreGone(f: Finals, start: Finals, written: seq<Kind>, k: Kind)
    requires Lacks(f, start, written) && k in written
    ensures Lacks(f - {k}, start, written)
  {
    var gone: set<Kind> :| f == start - gone && gone <= Elements(written);
    assert f - {k} == start - (gone + {k});
  }

  // ----- steps of the writer stay within the reachable states

  lemma StageReachable(c: Codec, prior: Finals, b: Bundle, j: nat)
    requires j <= |Order(b)|
    ensures Reachable(c, prior, b, Installed(c, prior, b, j))
    ensures j < |Order(b)| ==> Reachable(c, prior, b, Installed(c, prior, b, j) - {Order(b)[j]})
  {
    var f := Installed(c, prior, b, j);
    assert f == f - {};
    assert At(c, prior, b, j, {}, f);
    if j < |Order(b)| {
      assert At(c, prior, b, j, {Order(b)[j]}, f - {Order(b)[j]});
    }
  }

  /** What rolling back the first j files can leave of a state that stopped while writing file j. */
  lemma RollbackReachable(c: Codec, prior: Finals, b: Bundle, j: nat, start: Finals, f: Finals)
    requires j < |Order(b)| && b.sig.Some?
    requires HaltedAt(c, prior, b, j, start)
    requires Lacks(f, start, Order(b)[..j])
    ensures Reachable(c, prior, b, f) && Stopped(c, prior, b, f)
  {
    var s := Installed(c, prior, b, j);
    var gone: set<Kind> :| f == start - gone && gone <= Elements(Order(b)[..j]);
    var all := if start == s then gone else gone + {Order(b)[j]};
    assert f == s - all;
    assert At(c, prior, b, j, all, f);
  }

  /** The writer gave up before the manifest was in place. */
  ghost predicate Stopped(c: Codec, prior: Finals, b: Bundle, f: Finals) {
    exists j: nat, gone :: j < |Order(b)| && At(c, prior, b, j, gone, f)
  }

  lemma StageStopped(c: Codec, prior: Finals, b: Bundle, j: nat, f: Finals)
    requires HaltedAt(c, prior, b, j, f)
    ensures Stopped(c, prior, b, f)
  {
    var s := Installed(c, prior, b, j);
    assert s == s - {};
    if f == s {
      assert At(c, prior, b, j, {}, f);
    } else {
      assert At(c, prior, b, j, {Order(b)[j]}, f);
    }
  }

  ghost predicate AllReachable(c: Codec, prior: Finals, b: Bundle, trace: seq<Dir>, from: nat) {
    forall i :: from <= i < |trace| ==> Reachable(c, prior, b, FinalsOf(trace[i]))
  }

  /** A trace of reachable states, continued by those that writing file j passes through. */
  lemma TraceReachable(c: Codec, prior: Finals, b: Bundle, j: nat, trace: seq<Dir>, from: nat, mark: nat)
    requires j < |Order(b)| && from <= mark <= |trace|
    requires AllReachable(c, prior, b, trace[..mark], from)
    requires Passed(trace, mark, Installed(c, prior, b, j), Order(b)[j], Content(c, b, Order(b)[j]))
    ensures AllReachable(c, prior, b, trace, from)
  {
    StageReachable(c, prior, b, j);
    StageReachable(c, prior, b, j + 1);
    forall i | from <= i < |trace| ensures Reachable(c, prior, b, FinalsOf(trace[i])) {
      if i < mark {
        assert trace[..mark][i] == trace[i];
      }
    }
  }

  /** No temporary file is left of these. */
  ghost predicate NoTemps(f: Dir, ks: seq<Kind>) { forall i :: 0 <= i < |ks| ==> Temp(ks[i]) !in f }

  lemma NoTempsKept(f: Dir, g: Dir, order: seq<Kind>, j: nat)
    requires j < |order| && NoTemps(f, order[..j]) && SameBut(g, f, order[j])
    requires forall x, y :: 0 <= x < y < |order| ==> order[x] != order[y]
    ensures NoTemps(g, order[..j]) && (Temp(order[j]) !in g ==> NoTemps(g, order[..j + 1]))
  {
    forall i | 0 <= i < j ensures Temp(order[i]) !in g {
      assert order[..j][i] == order[i];
    }
  }

  /** Files before position j are in place, and everything passed through so far was reachable. */
  ghost predicate Progress(c: Codec, prior: Finals, b: Bundle, j: nat, f: Dir, trace: seq<Dir>, from: nat) {
    j <= |Order(b)| && FinalsOf(f) == Installed(c, prior, b, j) && NoTemps(f, Order(b)[..j]) && AllReachable(c, prior, b, trace, from)
  }

  /** Writing file j, successful or not. */
  lemma ProgressStep(c: Codec, prior: Finals, b: Bundle, j: nat, f: Dir, trace: seq<Dir>, g: Dir, more: seq<Dir>, from: nat, ok: bool)
    requires Progress(c, prior, b, j, f, trace, from) && j < |Order(b)| && from <= |trace| && trace <= more
    requires Wrote(g, f, Order(b)[j], Content(c, b, Order(b)[j]), ok)
    requires Passed(more, |trace|, FinalsOf(f), Order(b)[j], Content(c, b, Order(b)[j]))
    ensures AllReachable(c, prior, b, more, from) && NoTemps(g, Order(b)[..j])
    ensures ok ==> Progress(c, prior, b, j + 1, g, more, from)
    ensures !ok ==> HaltedAt(c, prior, b, j, FinalsOf(g))
  {
    assert more[..|trace|] == trace;
    TraceReachable(c, prior, b, j, more, from, |trace|);
    NoTempsKept(f, g, Order(b), j);
  }

  /** The operations since the base renamed just these files into place. */
  ghost predicate InPlace(log: seq<Op>, base: nat, written: seq<Kind>) {
    base <= |log| && forall k :: k in written <==> Renamed(k, true) in log[base..]
  }

  /** Writing a file renames it into place iff it succeeds, and no other file. */
  lemma WriteRenames(k: Kind, existed: bool, ops: seq<Op>, ok: bool, x: Kind)
    requires WriteOps(k, existed, ops, ok)
    ensures Renamed(x, true) in ops <==> ok && x == k
  {
    assert ops == [ops[0]] + ops[1..];
    if ops[0] == WroteTemp(k, true) && !ok {
      var r := ops[1..];
      assert r == r[..|r| - 1] + [r[|r| - 1]];
      assert Renamed(x, true) !in r[..|r| - 1];
    }
  }

  lemma InPlaceStep(log: seq<Op>, ops: seq<Op>, base: nat, order: seq<Kind>, j: nat, existed: bool, ok: bool)
    requires j < |order| && InPlace(log, base, order[..j]) && WriteOps(order[j], existed, ops, ok)
    ensures InPlace(log + ops, base, order[..j + if ok then 1 else 0])
  {
    assert (log + ops)[base..] == log[base..] + ops;
    assert order[..j + 1] == order[..j] + [order[j]];
    forall k ensures Renamed(k, true) in ops <==> ok && k == order[j] {
      WriteRenames(order[j], existed, ops, ok, k);
    }
  }

  lemma InPlaceRolled(log: seq<Op>, ops: seq<Op>, base: nat, written: seq<Kind>, names: seq<Name>)
    requires InPlace(log, base, written) && UnlinkOps(ops, names)
    ensures InPlace(log + ops, base, written)
  {
    assert (log + ops)[base..] == log[base..] + ops;
  }

  method WriteNext(dir: Directory, c: Codec, b: Bundle, j: nat, ghost prior: Finals, ghost from: nat, ghost base: nat) returns (ok: bool)
    requires j < |Order(b)| && InPlace(dir.log, base, Order(b)[..j])
    requires from <= |dir.trace| && Progress(c, prior, b, j, dir.files, dir.trace, from)
    modifies dir
    ensures old(dir.trace) <= dir.trace && AllReachable(c, prior, b, dir.trace, from) && NoTemps(dir.files, Order(b)[..j])
    ensures ok ==> Progress(c, prior, b, j + 1, dir.files, dir.trace, from)
    ensures !ok ==> HaltedAt(c, prior, b, j, FinalsOf(dir.files))
    ensures InPlace(dir.log, base, Order(b)[..j + if ok then 1 else 0])
    ensures old(AllGood(dir.plan)) ==> ok && AllGood(dir.plan)
  {
    ghost var passed, before, done, ops := dir.trace, dir.files, dir.log, [];
    ok, ops := dir.AtomicWrite(Order(b)[j], Content(c, b, Order(b)[j]));
    InPlaceStep(done, ops, base, Order(b), j, Final(Order(b)[j]) in before, ok);
    ProgressStep(c, prior, b, j, before, passed, dir.files, dir.trace, from, ok);
  }

  /** Writes the files in order; written are those in place, which is all of them iff nothing failed. */
  method WriteInOrder(dir: Directory, c: Codec, b: Bundle) returns (written: seq<Kind>)
    modifies dir
    ensures old(dir.trace) <= dir.trace
    ensures AllReachable(c, FinalsOf(old(dir.files)), b, dir.trace, |old(dir.trace)|)
    ensures written <= Order(b) && NoTemps(dir.files, written) && InPlace(dir.log, |old(dir.log)|, written)
    ensures |written| == |Order(b)| ==> written == Order(b) && FinalsOf(dir.files) == Complete(c, FinalsOf(old(dir.files)), b)
    ensures |written| < |Order(b)| ==> HaltedAt(c, FinalsOf(old(dir.files)), b, |written|, FinalsOf(dir.files))
    ensures old(AllGood(dir.plan)) ==> |written| == |Order(b)|
  {
    ghost var prior, from, base := FinalsOf(dir.files), |dir.trace|, |dir.log|;
    var order := Order(b);
    written := [];
    var j := 0;
    while j < |order|
      invariant 0 <= j <= |order| && written == order[..j]
      invariant old(dir.trace) <= dir.trace && Progress(c, prior, b, j, dir.files, dir.trace, from)
      invariant InPlace(dir.log, base, order[..j])
      invariant old(AllGood(dir.plan)) ==> AllGood(dir.plan)
    {
      var ok := WriteNext(dir, c, b, j, prior, from, base);
      if !ok {
        return;
      }
      written := written + [order[j]];
      j := j + 1;
    }
    assert order[..|order|] == order;
  }

  /** The names of the files, last first. */
  function Backwards(ks: seq<Kind>): seq<Name> {
    if ks == [] then [] else Backwards(ks[1..]) + [Final(ks[0])]
  }

  lemma {:induction false} TriedAll(f: Dir, ks: seq<Kind>)
    requires forall i :: 0 <= i < |ks| ==> Final(ks[i]) in f
    ensures Tried(f, ks) == Backwards(ks)
  {
    if ks != [] {
      TriedAll(f, ks[1..]);
    }
  }

  lemma {:induction false} BackwardsHas(ks: seq<Kind>, k: Kind)
    ensures k in ks <==> Final(k) in Backwards(ks)
  {
    if ks != [] {
      BackwardsHas(ks[1..], k);
      assert ks == [ks[0]] + ks[1..];
    }
  }

  /** The first j files of the bundle are in place while file j is being written. */
  lemma WrittenThere(c: Codec, prior: Finals, b: Bundle, j: nat, f: Dir)
    requires j < |Order(b)|
    requires HaltedAt(c, prior, b, j, FinalsOf(f))
    ensures forall k :: k in Order(b)[..j] ==> Final(k) in f && f[Final(k)] == Content(c, b, k)
  {
    forall k | k in Order(b)[..j] ensures Final(k) in f && f[Final(k)] == Content(c, b, k) {
      InstalledHas(c, prior, b, j, k);
      var i :| 0 <= i < j && Order(b)[..j][i] == k;
      assert Order(b)[i] != Order(b)[j];
      assert k in FinalsOf(f);
    }
  }

  /** A rollback tries every written file once, last first, and leaves just those whose unlinking failed. */
  ghost predicate RolledBack(f: Dir, written: seq<Kind>, rolled: seq<Op>) {
    && UnlinkOps(rolled, Backwards(written))
    && forall k :: k in written ==> (Final(k) in f <==> Unlinked(Final(k), false) in rolled)
  }

  lemma RollbackMeans(start: Dir, f: Dir, written: seq<Kind>, rolled: seq<Op>)
    requires forall i, j :: 0 <= i < j < |written| ==> written[i] != written[j]
    requires forall k :: k in written ==> Final(k) in start
    requires UnlinkOps(rolled, Tried(start, written)) && Without(f, start, rolled)
    ensures RolledBack(f, written, rolled)
    ensures AllOk(rolled) ==> forall k :: k in written ==> Final(k) !in f
  {
    TriedAll(start, written);
    BackwardsOnce(written);
    forall k | k in written ensures Final(k) in f <==> Unlinked(Final(k), false) in rolled {
      BackwardsHas(written, k);
      var i :| 0 <= i < |rolled| && rolled[i].name == Final(k);
      assert rolled[i] == Unlinked(Final(k), rolled[i].ok);
      assert rolled[i] in rolled;
      forall x | 0 <= x < |rolled| && rolled[x].name == Final(k) ensures x == i {
        assert Backwards(written)[x] == Backwards(written)[i];
      }
    }
  }

  lemma {:induction false} BackwardsOnce(ks: seq<Kind>)
    requires forall i, j :: 0 <= i < j < |ks| ==> ks[i] != ks[j]
    ensures forall i, j :: 0 <= i < j < |Backwards(ks)| ==> Backwards(ks)[i] != Backwards(ks)[j]
  {
    if ks != [] {
      BackwardsOnce(ks[1..]);
      BackwardsHas(ks[1..], ks[0]);
    }
  }

  ghost predicate EndsIn(log: seq<Op>, last: seq<Op>) { |last| <= |log| && log[|log| - |last|..] == last }

  /**
   * Every state that the files pass through is a reachable one, so a crash anywhere leaves one. Success leaves the
   * complete bundle and no temporary file, failure a state without the new manifest, and a run without faults succeeds.
   * The written files are those that the call renamed into place, all of them iff it succeeds.
   * Of a failed call, the files written before the failure stay if the bundle is unsigned; if it is signed they are
   * rolled back, last first, and only those stay whose unlinking failed, none if the operations to come are good.
   */
  method WriteAgentRunBundle(dir: Directory, c: Codec, b: Bundle)
    returns (ok: bool, ghost written: seq<Kind>, ghost rolled: seq<Op>, ghost toCome: seq<Outcome>)
    modifies dir
    ensures old(dir.trace) <= dir.trace
    ensures AllReachable(c, FinalsOf(old(dir.files)), b, dir.trace, |old(dir.trace)|)
    ensures ok ==> FinalsOf(dir.files) == Complete(c, FinalsOf(old(dir.files)), b) && NoTemps(dir.files, Order(b))
    ensures !ok ==> Stopped(c, FinalsOf(old(dir.files)), b, FinalsOf(dir.files))
    ensures old(AllGood(dir.plan)) ==> ok
    ensures written <= Order(b) && (ok <==> written == Order(b)) && InPlace(dir.log, |old(dir.log)|, written)
    ensures EndsIn(dir.log, rolled)
    ensures ok || b.sig.None? ==> rolled == []
    ensures !ok && b.sig.None? ==> forall k :: k in written ==> Final(k) in dir.files && dir.files[Final(k)] == Content(c, b, k)
    ensures !ok && b.sig.Some? ==> RolledBack(dir.files, written, rolled)
    ensures !ok && b.sig.Some? && AllGood(toCome) ==> forall k :: k in written ==> Final(k) !in dir.files
  {
    ghost var prior := FinalsOf(dir.files);
    var done := WriteInOrder(dir, c, b);
    written, rolled, toCome := done, [], dir.plan;
    ok := |done| == |Order(b)|;
    if !ok {
      rolled := GiveUp(dir, c, b, done, prior, |old(dir.trace)|, |old(dir.log)|);
    }
  }

  /** The catch clause: a signed bundle is rolled back, an unsigned one stays as it is. */
  method GiveUp(dir: Directory, c: Codec, b: Bundle, done: seq<Kind>, ghost prior: Finals, ghost from: nat, ghost base: nat)
    returns (ghost rolled: seq<Op>)
    requires |done| < |Order(b)| && done == Order(b)[..|done|] && from <= |dir.trace|
    requires HaltedAt(c, prior, b, |done|, FinalsOf(dir.files))
    requires AllReachable(c, prior, b, dir.trace, from) && InPlace(dir.log, base, done)
    modifies dir
    ensures old(dir.trace) <= dir.trace && AllReachable(c, prior, b, dir.trace, from)
    ensures Stopped(c, prior, b, FinalsOf(dir.files))
    ensures EndsIn(dir.log, rolled) && InPlace(dir.log, base, done)
    ensures b.sig.None? ==> rolled == [] && forall k :: k in done ==> Final(k) in dir.files && dir.files[Final(k)] == Content(c, b, k)
    ensures b.sig.Some? ==> RolledBack(dir.files, done, rolled)
    ensures b.sig.Some? && old(AllGood(dir.plan)) ==> forall k :: k in done ==> Final(k) !in dir.files
  {
    ghost var j, before, passed, tried := |done|, dir.files, dir.trace, dir.log;
    WrittenThere(c, prior, b, j, before);
    rolled := [];
    if b.sig.None? {
      StageStopped(c, prior, b, j, FinalsOf(before));
    } else {
      rolled := dir.Rollback(done);
      RollbackMeans(before, dir.files, done, rolled);
      InPlaceRolled(tried, rolled, base, done, Tried(before, done));
      LackReachable(c, prior, b, j, FinalsOf(before), FinalsOf(dir.files), passed, dir.trace, from);
    }
  }

  lemma LackReachable(c: Codec, prior: Finals, b: Bundle, j: nat, start: Finals, f: Finals, passed: seq<Dir>, trace: seq<Dir>, from: nat)
    requires j < |Order(b)| && b.sig.Some? && from <= |passed| && passed <= trace
    requires HaltedAt(c, prior, b, j, start)
    requires AllReachable(c, prior, b, passed, from) && AllLack(trace, |passed|, start, Order(b)[..j])
    requires Lacks(f, start, Order(b)[..j])
    ensures AllReachable(c, prior, b, trace, from) && Stopped(c, prior, b, f)
  {
    RollbackReachable(c, prior, b, j, start, f);
    forall i | from <= i < |trace| ensures Reachable(c, prior, b, FinalsOf(trace[i])) {
      if i >= |passed| {
        RollbackReachable(c, prior, b, j, start, FinalsOf(trace[i]));
      } else {
        assert passed[i] == trace[i];
      }
    }
  }

  // ----- what readers can see

  /** What the stages contain: the files before j are new, the others as before. */
  lemma {:induction false} InstalledHas(c: Codec, prior: Finals, b: Bundle, j: nat, k: Kind)
    requires j <= |Order(b)|
    ensures k in Order(b)[..j] ==> k in Installed(c, prior, b, j) && Installed(c, prior, b, j)[k] == Content(c, b, k)
    ensures k !in Order(b)[..j] ==>
              (k in Installed(c, prior, b, j) <==> k in prior) && (k in prior ==> Installed(c, prior, b, j)[k] == prior[k])
  {
    if j > 0 {
      InstalledHas(c, prior, b, j - 1, k);
      assert Order(b)[..j] == Order(b)[..j - 1] + [Order(b)[j - 1]];
    }
  }

  /** The manifest is last: as long as it is not the new one, it is the old one or missing; with it everything is new. */
  lemma ManifestLast(c: Codec, prior: Finals, b: Bundle, f: Finals)
    requires Reachable(c, prior, b, f)
    ensures f == Complete(c, prior, b) || Manifest !in f || (Manifest in prior && f[Manifest] == prior[Manifest])
    ensures Stopped(c, prior, b, f) ==> Manifest !in f || (Manifest in prior && f[Manifest] == prior[Manifest])
  {
    forall j: nat, gone | At(c, prior, b, j, gone, f)
      ensures j < |Order(b)| ==> Manifest !in f || (Manifest in prior && f[Manifest] == prior[Manifest])
      ensures j == |Order(b)| ==> f == Complete(c, prior, b)
    {
      if j < |Order(b)| {
        assert forall i :: 0 <= i < j ==> Order(b)[i] != Manifest;
        InstalledHas(c, prior, b, j, Manifest);
      }
    }
  }

  /** Result and events are those of the bundle up to line endings. */
  ghost predicate IsBundle(f: Finals, events: Bytes, result: Bytes) {
    && Events in f && LfCanonical(f[Events]) == LfCanonical(events)
    && Result in f && LfCanonical(f[Result]) == LfCanonical(result)
  }

  lemma CompleteHas(c: Codec, prior: Finals, b: Bundle)
    ensures var f := Complete(c, prior, b);
            && Events in f && f[Events] == b.events && Result in f && f[Result] == b.result
            && Manifest in f && f[Manifest] == Content(c, b, Manifest)
            && (b.sig.Some? ==> Sig in f && f[Sig] == b.sig.value)
  {
    var o := Order(b);
    assert o[..|o|] == o;
    InstalledHas(c, prior, b, |o|, Events);
    InstalledHas(c, prior, b, |o|, Result);
    InstalledHas(c, prior, b, |o|, Manifest);
    InstalledHas(c, prior, b, |o|, Sig);
    assert o[0] in o && o[1] in o && o[|o| - 1] in o;
    if b.sig.Some? { assert o[2] in o; }
  }

  /** Normal completion always passes the reader. */
  lemma CompletionPasses(c: Codec, prior: Finals, b: Bundle)
    requires Faithful(c)
    ensures Integrity(c, Complete(c, prior, b)) == Accepted(BuildRecord(c, b))
  {
    CompleteHas(c, prior, b);
  }

  lemma DescribedAlike(c: Codec, record: Record, f: Finals, g: Finals)
    requires Faithful(c) && Describes(c, record, f) && Describes(c, record, g)
    ensures IsBundle(f, g[Events], g[Result])
  {
  }

  /** Onto a directory that passed, no failure or crash ever shows a mix: what passes is the old bundle or the new one. */
  lemma NeverAMix(c: Codec, prior: Finals, b: Bundle, f: Finals)
    requires Faithful(c) && Accepts(c, prior) && Reachable(c, prior, b, f) && Accepts(c, f)
    ensures IsBundle(f, b.events, b.result) || IsBundle(f, prior[Events], prior[Result])
  {
    AcceptsMeans(c, prior);
    AcceptsMeans(c, f);
    ManifestLast(c, prior, b, f);
    CompleteHas(c, prior, b);
    if f != Complete(c, prior, b) {
      DescribedAlike(c, c.parse(f[Manifest]).record, f, prior);
    }
  }

  /** Into a directory without a manifest, only the complete new bundle passes. */
  lemma FreshOnlyComplete(c: Codec, prior: Finals, b: Bundle, f: Finals)
    requires Faithful(c) && Manifest !in prior && Reachable(c, prior, b, f)
    ensures Accepts(c, f) <==> f == Complete(c, prior, b)
  {
    ManifestLast(c, prior, b, f);
    CompletionPasses(c, prior, b);
    AcceptsMeans(c, f);
  }

  /** A failed call leaves nothing that passes for the new bundle, unless the old manifest already described it. */
  lemma FailureNotComplete(c: Codec, prior: Finals, b: Bundle, f: Finals)
    requires Faithful(c) && Stopped(c, prior, b, f) && Reachable(c, prior, b, f) && Accepts(c, f)
    ensures Manifest in prior && f[Manifest] == prior[Manifest]
  {
    ManifestLast(c, prior, b, f);
    AcceptsMeans(c, f);
  }

  // ----- a prior directory that did not pass

  /** Events and result are both there but are neither the new pair nor the pair that was there before. */
  ghost predicate Mixed(prior: Finals, b: Bundle, f: Finals) {
    && Events in f && Result in f
    && !IsBundle(f, b.events, b.result)
    && !(Events in prior && Result in prior && IsBundle(f, prior[Events], prior[Result]))
  }

  ghost predicate ShowsMix(c: Codec, prior: Finals, b: Bundle, f: Finals) {
    Reachable(c, prior, b, f) && Accepts(c, f) && Mixed(prior, b, f)
  }

  lemma TwoInstalled(c: Codec, prior: Finals, b: Bundle, j: nat)
    requires 2 <= j <= |Order(b)|
    ensures var f := Installed(c, prior, b, j); Events in f && f[Events] == b.events && Result in f && f[Result] == b.result
  {
    InstalledHas(c, prior, b, j, Events);
    InstalledHas(c, prior, b, j, Result);
    assert Order(b)[..j][0] == Events && Order(b)[..j][1] == Result;
  }

  lemma PairAt(c: Codec, prior: Finals, b: Bundle, j: nat, gone: set<Kind>, f: Finals)
    requires At(c, prior, b, j, gone, f) && Events in f && Result in f
    ensures j == 0 ==> Events in prior && Result in prior && f[Events] == prior[Events] && f[Result] == prior[Result]
    ensures j == 1 ==> f == prior[Events := b.events]
    ensures j >= 2 ==> f[Events] == b.events && f[Result] == b.result
  {
    if j >= 2 {
      TwoInstalled(c, prior, b, j);
    } else if j == 1 {
      assert Installed(c, prior, b, 1) == prior[Events := b.events];
      assert Order(b)[..1] == [Events];
      assert gone <= {Events, Result} && Events !in gone && Result !in gone;
      assert gone == {};
    }
  }

  /**
   * Onto a directory that did not pass, a run can show a mix iff the old manifest happens to describe the new events
   * next to the old result, which a caller can check beforehand.
   */
  lemma MixIff(c: Codec, prior: Finals, b: Bundle)
    ensures (exists f :: ShowsMix(c, prior, b, f)) <==>
            Accepts(c, prior[Events := b.events]) && Mixed(prior, b, prior[Events := b.events])
  {
    var first := prior[Events := b.events];
    StageReachable(c, prior, b, 1);
    assert Installed(c, prior, b, 1) == first;
    forall f | ShowsMix(c, prior, b, f) ensures f == first {
      var j: nat, gone :| At(c, prior, b, j, gone, f);
      PairAt(c, prior, b, j, gone, f);
    }
    if Accepts(c, first) && Mixed(prior, b, first) {
      assert ShowsMix(c, prior, b, first);
    }
  }

  /** Such a directory exists: an events file that changed after its manifest was written, back to the bytes written now. */
  lemma MixExample(c: Codec, meta: Bytes, newResult: Bytes, result: Bytes, newEvents: Bytes, events: Bytes)
    requires Faithful(c)
    requires LfCanonical(newResult) != LfCanonical(result) && LfCanonical(newEvents) != LfCanonical(events)
    ensures var described := Bundle(meta, newEvents, result, None);
            var prior := map[Events := events, Result := result, Manifest := c.text(BuildRecord(c, described))];
            !Accepts(c, prior) && exists f :: ShowsMix(c, prior, Bundle(meta, newEvents, newResult, None), f)
  {
    var described, b := Bundle(meta, newEvents, result, None), Bundle(meta, newEvents, newResult, None);
    var prior := map[Events := events, Result := result, Manifest := c.text(BuildRecord(c, described))];
    AcceptsMeans(c, prior);
    var first := prior[Events := newEvents];
    AcceptsMeans(c, first);
    assert Describes(c, BuildRecord(c, described), first);
    MixIff(c, prior, b);
  }

  // ----- line endings on disk

  function RewriteOnDisk(f: Finals): Finals {
    map k: Kind | k in f :: if k.Events? || k.Result? then Rewrite(f[k]) else f[k]
  }

  /** A bundle still passes after every LF of result and events became CRLF on disk iff neither held a CRLF when written. */
  lemma RewrittenPasses(c: Codec, prior: Finals, b: Bundle)
    requires Faithful(c)
    ensures Accepts(c, RewriteOnDisk(Complete(c, prior, b))) <==> !HasCrLf(b.result) && !HasCrLf(b.events)
  {
    var f := Complete(c, prior, b);
    CompleteHas(c, prior, b);
    AcceptsMeans(c, RewriteOnDisk(f));
    RewriteInvisible(b.result);
    RewriteInvisible(b.events);
  }
}
