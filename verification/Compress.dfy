/**
  Content-addressed compression of trajectories, modules/eval/compress.go. Redaction and the content
  hash are parameters; white space and the blob table are as in the source.
 */
module Compress {
  import opened Common
  import opened Text

  const RAW: string := "cyntr.trajectory/v1"
  const COMPACT: string := "cyntr.trajectory.compact/v1"

  datatype Step = Step(index: int, tool: string, input: string, observation: string)

  datatype Header = Header(
    id: string, tenant: string, agent: string, session: string, model: string, suite: string, runId: string,
    outcome: string, toolCalls: int, turns: int)

  datatype Trajectory = Trajectory(
    header: Header, schema: string, prompt: string, steps: seq<Step>, output: string,
    user: string, subagent: bool, createdAt: Option<int>)

  datatype CompactStep = CompactStep(index: int, tool: string, inRef: string, outRef: string)

  datatype CompactTrajectory = CompactTrajectory(
    header: Header, schema: string, prompt: string, steps: seq<CompactStep>, output: string, blobs: map<string, string>)

  /** Masking of secrets followed by redaction, and the content hash. */
  datatype Env = Env(redact: string -> string, hash: string -> string)

  /** A hash is 16 hex digits, so it is never the empty reference. */
  ghost predicate HashesAreRefs(env: Env) {
    forall s: string :: env.hash(s) != ""
  }

  // ---- Scrubbing ----

  function Normalize(s: string): string {
    JoinWords(Fields(s))
  }

  function Scrub(env: Env, s: string): string {
    Normalize(env.redact(s))
  }

  /** Normalising what is already normalised changes nothing. */
  lemma NormalizeTwice(s: string)
    ensures Normalize(Normalize(s)) == Normalize(s)
  {
    FieldsAreWords([], s);
    FieldsOfJoin(Fields(s));
  }

  /** Texts with the same words have the same normal form, and texts with different words differ. */
  lemma NormalFormIsWords(s: string, t: string)
    ensures Normalize(s) == Normalize(t) <==> Fields(s) == Fields(t)
  {
    FieldsAreWords([], s);
    FieldsAreWords([], t);
    FieldsOfJoin(Fields(s));
    FieldsOfJoin(Fields(t));
  }

  /** The text without its white space. */
  function Visible(s: string): string {
    if s == [] then [] else (if IsSpace(s[0]) then [] else [s[0]]) + Visible(s[1..])
  }

  function Concat(words: seq<string>): string {
    if words == [] then [] else words[0] + Concat(words[1..])
  }

  lemma {:induction false} VisibleOfJoin(a: string, b: string)
    ensures Visible(a + b) == Visible(a) + Visible(b)
    decreases |a|
  {
    if a == [] {
      assert a + b == b;
    } else {
      assert (a + b)[1..] == a[1..] + b;
      VisibleOfJoin(a[1..], b);
    }
  }

  lemma {:induction false} WordIsVisible(w: string)
    requires forall i :: 0 <= i < |w| ==> !IsSpace(w[i])
    ensures Visible(w) == w
    decreases |w|
  {
    if w != [] {
      WordIsVisible(w[1..]);
    }
  }

  lemma {:induction false} FieldsKeepVisible(word: string, s: string)
    ensures Concat(FieldsFrom(word, s)) == word + Visible(s)
    decreases |s|
  {
    if s == [] {
      assert word == [] || FieldsFrom(word, s) == [word] + [];
    } else if IsSpace(s[0]) {
      FieldsKeepVisible([], s[1..]);
      var rest := FieldsFrom([], s[1..]);
      assert word != [] ==> (Flushed(word) + rest)[1..] == rest;
      assert word == [] ==> Flushed(word) + rest == rest;
    } else {
      FieldsKeepVisible(word + [s[0]], s[1..]);
    }
  }

  lemma {:induction false} JoinKeepsVisible(words: seq<string>)
    requires forall i :: 0 <= i < |words| ==> IsWord(words[i])
    ensures Visible(JoinWords(words)) == Concat(words)
    decreases |words|
  {
    if |words| == 1 {
      WordIsVisible(words[0]);
      assert Concat(words) == words[0] + Concat([]);
    } else if |words| > 1 {
      var rest := JoinWords(words[1..]);
      VisibleOfJoin(words[0] + " ", rest);
      VisibleOfJoin(words[0], " ");
      WordIsVisible(words[0]);
      JoinKeepsVisible(words[1..]);
      assert Visible(" ") == [];
    }
  }

  /** Single spaces only, none at the ends. */
  ghost predicate Tidy(s: string) {
    forall i :: 0 <= i < |s| && IsSpace(s[i]) ==> s[i] == ' ' && 0 < i < |s| - 1 && !IsSpace(s[i + 1])
  }

  lemma {:induction false} JoinIsTidy(words: seq<string>)
    requires forall i :: 0 <= i < |words| ==> IsWord(words[i])
    ensures Tidy(JoinWords(words)) && (words != [] ==> JoinWords(words) != [] && !IsSpace(JoinWords(words)[0]))
    decreases |words|
  {
    if |words| > 1 {
      JoinIsTidy(words[1..]);
      var w, rest, all := words[0], JoinWords(words[1..]), JoinWords(words);
      assert all == w + " " + rest && forall i :: 0 <= i < |w| ==> all[i] == w[i] && !IsSpace(w[i]);
      forall i | 0 <= i < |all| && IsSpace(all[i]) ensures all[i] == ' ' && 0 < i < |all| - 1 && !IsSpace(all[i + 1]) {
        if i > |w| {
          assert all[i] == rest[i - |w| - 1];
          assert i + 1 < |all| ==> all[i + 1] == rest[i - |w|];
        } else if i == |w| {
          assert all[i + 1] == rest[0];
        }
      }
    }
  }

  /** Normalising keeps every visible character in order and leaves white space only as single
      spaces between them. */
  lemma NormalizeOnlyMovesSpace(s: string)
    ensures Visible(Normalize(s)) == Visible(s) && Tidy(Normalize(s))
  {
    FieldsAreWords([], s);
    FieldsKeepVisible([], s);
    JoinKeepsVisible(Fields(s));
    JoinIsTidy(Fields(s));
  }

  // ---- What compression and expansion compute ----

  function Ref(env: Env, text: string): string {
    if text == "" then "" else env.hash(text)
  }

  function Put(env: Env, blobs: map<string, string>, text: string): map<string, string> {
    if text == "" then blobs else blobs[env.hash(text) := text]
  }

  function Compacted(env: Env, st: Step): CompactStep {
    CompactStep(st.index, st.tool, Ref(env, Scrub(env, st.input)), Ref(env, Scrub(env, st.observation)))
  }

  /** The blob table after the inputs and observations of `steps`, in order. */
  function BlobsOf(env: Env, steps: seq<Step>): map<string, string> {
    if steps == [] then map[]
    else
      var st := steps[|steps| - 1];
      Put(env, Put(env, BlobsOf(env, steps[..|steps| - 1]), Scrub(env, st.input)), Scrub(env, st.observation))
  }

  function CompactOf(env: Env, t: Trajectory): CompactTrajectory {
    CompactTrajectory(
      t.header, COMPACT, Scrub(env, t.prompt),
      seq(|t.steps|, i requires 0 <= i < |t.steps| => Compacted(env, t.steps[i])),
      Scrub(env, t.output), BlobsOf(env, t.steps))
  }

  /** Go's map lookup: a missing key reads as the empty string. */
  function Lookup(blobs: map<string, string>, ref: string): string {
    if ref in blobs then blobs[ref] else ""
  }

  function ExpandedStep(ct: CompactTrajectory, cs: CompactStep): Step {
    Step(cs.index, cs.tool, Lookup(ct.blobs, cs.inRef), Lookup(ct.blobs, cs.outRef))
  }

  function ExpandedOf(ct: CompactTrajectory): Trajectory {
    Trajectory(
      ct.header, RAW, ct.prompt,
      seq(|ct.steps|, i requires 0 <= i < |ct.steps| => ExpandedStep(ct, ct.steps[i])),
      ct.output, "", false, None)
  }

  // ---- The two transformations ----

  /** The blob table that the source's `intern` closure fills. */
  class BlobTable {
    var blobs: map<string, string>

    constructor ()
      ensures blobs == map[]
    {
      blobs := map[];
    }

    method Intern(env: Env, text: string) returns (ref: string)
      modifies this
      ensures ref == Ref(env, Scrub(env, text)) && blobs == Put(env, old(blobs), Scrub(env, text))
    {
      var s := Scrub(env, text);
      if s == "" {
        return "";
      }
      ref := env.hash(s);
      blobs := blobs[ref := s];
    }
  }

  method Compress(env: Env, t: Trajectory) returns (ct: CompactTrajectory)
    ensures ct == CompactOf(env, t)
  {
    var table := new BlobTable();
    var steps: seq<CompactStep> := [];
    for i := 0 to |t.steps|
      invariant |steps| == i && forall j :: 0 <= j < i ==> steps[j] == Compacted(env, t.steps[j])
      invariant fresh(table) && table.blobs == BlobsOf(env, t.steps[..i])
    {
      var st := t.steps[i];
      var inRef := table.Intern(env, st.input);
      var outRef := table.Intern(env, st.observation);
      assert t.steps[..i + 1][..i] == t.steps[..i];
      steps := steps + [CompactStep(st.index, st.tool, inRef, outRef)];
    }
    assert t.steps[..|t.steps|] == t.steps;
    return CompactTrajectory(t.header, COMPACT, Scrub(env, t.prompt), steps, Scrub(env, t.output), table.blobs);
  }

  method Expand(ct: CompactTrajectory) returns (t: Trajectory)
    ensures t == ExpandedOf(ct)
  {
    var steps: seq<Step> := [];
    for i := 0 to |ct.steps|
      invariant |steps| == i && forall j :: 0 <= j < i ==> steps[j] == ExpandedStep(ct, ct.steps[j])
    {
      var cs := ct.steps[i];
      steps := steps + [Step(cs.index, cs.tool, Lookup(ct.blobs, cs.inRef), Lookup(ct.blobs, cs.outRef))];
    }
    return Trajectory(ct.header, RAW, ct.prompt, steps, ct.output, "", false, None);
  }

  // ---- The blob table ----

  /** `text` is a non-empty scrubbed input or observation of the steps. */
  ghost predicate Occurs(env: Env, steps: seq<Step>, text: string) {
    text != "" && exists i :: 0 <= i < |steps| && (text == Scrub(env, steps[i].input) || text == Scrub(env, steps[i].observation))
  }

  lemma OccursOneMore(env: Env, steps: seq<Step>, text: string)
    requires steps != []
    ensures var st := steps[|steps| - 1];
      Occurs(env, steps, text) <==>
        text != "" && (Occurs(env, steps[..|steps| - 1], text) || text == Scrub(env, st.input) || text == Scrub(env, st.observation))
  {
    var front := steps[..|steps| - 1];
    if Occurs(env, front, text) {
      var i :| 0 <= i < |front| && (text == Scrub(env, front[i].input) || text == Scrub(env, front[i].observation));
      assert steps[i] == front[i];
    }
    if Occurs(env, steps, text) {
      var i :| 0 <= i < |steps| && (text == Scrub(env, steps[i].input) || text == Scrub(env, steps[i].observation));
      assert i < |front| ==> steps[i] == front[i];
    }
  }

  /** Every blob is a text that occurs, stored under its own hash. */
  lemma {:induction false} BlobsOccur(env: Env, steps: seq<Step>, key: string)
    requires key in BlobsOf(env, steps)
    ensures Occurs(env, steps, BlobsOf(env, steps)[key]) && env.hash(BlobsOf(env, steps)[key]) == key
    decreases |steps|
  {
    var front := steps[..|steps| - 1];
    if key in BlobsOf(env, front) {
      BlobsOccur(env, front, key);
      OccursOneMore(env, steps, BlobsOf(env, front)[key]);
    }
    OccursOneMore(env, steps, BlobsOf(env, steps)[key]);
  }

  /** Every text that occurs has a blob. */
  lemma {:induction false} TextsAreStored(env: Env, steps: seq<Step>, text: string)
    requires Occurs(env, steps, text)
    ensures env.hash(text) in BlobsOf(env, steps)
    decreases |steps|
  {
    OccursOneMore(env, steps, text);
    if Occurs(env, steps[..|steps| - 1], text) {
      TextsAreStored(env, steps[..|steps| - 1], text);
    }
  }

  ghost predicate Referenced(steps: seq<CompactStep>, ref: string) {
    exists i :: 0 <= i < |steps| && (steps[i].inRef == ref || steps[i].outRef == ref)
  }

  lemma OccurringIsReferenced(env: Env, t: Trajectory, text: string)
    requires Occurs(env, t.steps, text)
    ensures Referenced(CompactOf(env, t).steps, env.hash(text))
  {
    var i :| 0 <= i < |t.steps| && (text == Scrub(env, t.steps[i].input) || text == Scrub(env, t.steps[i].observation));
    assert CompactOf(env, t).steps[i] == Compacted(env, t.steps[i]);
  }

  /** The keys of the blob table are exactly the non-empty references of the steps. */
  lemma BlobsAreReferences(env: Env, t: Trajectory, ref: string)
    requires HashesAreRefs(env)
    ensures ref in CompactOf(env, t).blobs <==> ref != "" && Referenced(CompactOf(env, t).steps, ref)
  {
    var ct := CompactOf(env, t);
    if ref in ct.blobs {
      BlobsOccur(env, t.steps, ref);
      OccurringIsReferenced(env, t, ct.blobs[ref]);
      assert env.hash(ct.blobs[ref]) != "";
    }
    if ref != "" && Referenced(ct.steps, ref) {
      var i :| 0 <= i < |ct.steps| && (ct.steps[i].inRef == ref || ct.steps[i].outRef == ref);
      assert ct.steps[i] == Compacted(env, t.steps[i]);
      var text := if ct.steps[i].inRef == ref then Scrub(env, t.steps[i].input) else Scrub(env, t.steps[i].observation);
      assert Occurs(env, t.steps, text);
      TextsAreStored(env, t.steps, text);
    }
  }

  // ---- Expanding what was compressed ----

  /** No two different texts of the steps have the same hash. */
  ghost predicate NoCollision(env: Env, steps: seq<Step>) {
    forall a, b :: Occurs(env, steps, a) && Occurs(env, steps, b) && env.hash(a) == env.hash(b) ==> a == b
  }

  function Scrubbed(env: Env, st: Step): Step {
    Step(st.index, st.tool, Scrub(env, st.input), Scrub(env, st.observation))
  }

  /** Resolving the reference of a text gives the text. */
  ghost predicate Resolves(env: Env, steps: seq<Step>, text: string) {
    Lookup(BlobsOf(env, steps), Ref(env, text)) == text
  }

  lemma EmptyResolves(env: Env, steps: seq<Step>)
    requires HashesAreRefs(env)
    ensures Resolves(env, steps, "")
  {
    if "" in BlobsOf(env, steps) {
      BlobsOccur(env, steps, "");
    }
  }

  /** All texts resolve exactly when there is no collision among them. */
  lemma ResolvesUnlessCollision(env: Env, steps: seq<Step>)
    ensures (forall a :: Occurs(env, steps, a) ==> Resolves(env, steps, a)) <==> NoCollision(env, steps)
  {
    if NoCollision(env, steps) {
      forall a | Occurs(env, steps, a) ensures Resolves(env, steps, a) {
        TextsAreStored(env, steps, a);
        BlobsOccur(env, steps, env.hash(a));
      }
    }
    if forall a :: Occurs(env, steps, a) ==> Resolves(env, steps, a) {
      forall a, b | Occurs(env, steps, a) && Occurs(env, steps, b) && env.hash(a) == env.hash(b) ensures a == b {
        assert Resolves(env, steps, a) && Resolves(env, steps, b);
      }
    }
  }

  lemma StepRoundTrip(env: Env, t: Trajectory, i: nat)
    requires i < |t.steps|
    ensures ExpandedOf(CompactOf(env, t)).steps[i] == Scrubbed(env, t.steps[i])
      <==> Resolves(env, t.steps, Scrub(env, t.steps[i].input)) && Resolves(env, t.steps, Scrub(env, t.steps[i].observation))
  {
    var ct := CompactOf(env, t);
    assert ct.steps[i] == Compacted(env, t.steps[i]);
    assert ExpandedOf(ct).steps[i] == ExpandedStep(ct, ct.steps[i]);
  }

  /** Count, order, index and tool of every step survive, whatever the hash does. */
  lemma DecisionsRoundTrip(env: Env, t: Trajectory)
    ensures var back := ExpandedOf(CompactOf(env, t));
      && |back.steps| == |t.steps| && back.header == t.header && back.schema == RAW
      && back.prompt == Scrub(env, t.prompt) && back.output == Scrub(env, t.output)
      && forall i :: 0 <= i < |t.steps| ==> back.steps[i].index == t.steps[i].index && back.steps[i].tool == t.steps[i].tool
  {
    var ct := CompactOf(env, t);
    forall i | 0 <= i < |t.steps|
      ensures ExpandedOf(ct).steps[i].index == t.steps[i].index && ExpandedOf(ct).steps[i].tool == t.steps[i].tool
    {
      assert ct.steps[i] == Compacted(env, t.steps[i]);
    }
  }

  /** Every step comes back with scrubbed input and observation exactly when no two different texts
      of the trajectory collide. */
  lemma ExpandCompress(env: Env, t: Trajectory)
    requires HashesAreRefs(env)
    ensures (forall i: nat :: i < |t.steps| ==> ExpandedOf(CompactOf(env, t)).steps[i] == Scrubbed(env, t.steps[i]))
      <==> NoCollision(env, t.steps)
  {
    var steps := t.steps;
    ResolvesUnlessCollision(env, steps);
    EmptyResolves(env, steps);
    if NoCollision(env, steps) {
      forall i: nat | i < |steps| ensures ExpandedOf(CompactOf(env, t)).steps[i] == Scrubbed(env, steps[i]) {
        StepRoundTrip(env, t, i);
        var a, b := Scrub(env, steps[i].input), Scrub(env, steps[i].observation);
        assert a != "" ==> Occurs(env, steps, a);
        assert b != "" ==> Occurs(env, steps, b);
      }
    }
    if forall i: nat :: i < |steps| ==> ExpandedOf(CompactOf(env, t)).steps[i] == Scrubbed(env, steps[i]) {
      forall a | Occurs(env, steps, a) ensures Resolves(env, steps, a) {
        var i: nat :| i < |steps| && (a == Scrub(env, steps[i].input) || a == Scrub(env, steps[i].observation));
        StepRoundTrip(env, t, i);
      }
    }
  }

  // ---- Compressing again ----

  /** Scrubbing again changes neither prompt, output, nor any input or observation. */
  ghost predicate Stable(env: Env, t: Trajectory) {
    && ScrubbedOnce(env, t.prompt) && ScrubbedOnce(env, t.output)
    && forall i :: 0 <= i < |t.steps| ==> ScrubbedOnce(env, t.steps[i].input) && ScrubbedOnce(env, t.steps[i].observation)
  }

  ghost predicate ScrubbedOnce(env: Env, s: string) {
    Scrub(env, Scrub(env, s)) == Scrub(env, s)
  }

  /** It is enough that redaction leaves scrubbed text alone. */
  lemma StableIfRedactionIs(env: Env, t: Trajectory)
    requires forall s :: env.redact(Scrub(env, s)) == Scrub(env, s)
    ensures Stable(env, t)
  {
    forall s ensures ScrubbedOnce(env, s) {
      NormalizeTwice(env.redact(s));
    }
  }

  /** Steps with the same scrubbed texts have the same blob table. */
  lemma {:induction false} SameBlobs(env: Env, a: seq<Step>, b: seq<Step>)
    requires |a| == |b| && forall i :: 0 <= i < |a| ==> Scrubbed(env, a[i]) == Scrubbed(env, b[i])
    ensures BlobsOf(env, a) == BlobsOf(env, b)
    decreases |a|
  {
    if a != [] {
      SameBlobs(env, a[..|a| - 1], b[..|b| - 1]);
      assert Scrubbed(env, a[|a| - 1]) == Scrubbed(env, b[|a| - 1]);
    }
  }

  lemma SameCompact(env: Env, a: Trajectory, b: Trajectory)
    requires a.header == b.header && Scrub(env, a.prompt) == Scrub(env, b.prompt) && Scrub(env, a.output) == Scrub(env, b.output)
    requires |a.steps| == |b.steps| && forall i :: 0 <= i < |a.steps| ==> Scrubbed(env, a.steps[i]) == Scrubbed(env, b.steps[i])
    ensures CompactOf(env, a) == CompactOf(env, b)
  {
    SameBlobs(env, a.steps, b.steps);
    forall i | 0 <= i < |a.steps| ensures CompactOf(env, a).steps[i] == CompactOf(env, b).steps[i] {
      assert Scrubbed(env, a.steps[i]) == Scrubbed(env, b.steps[i]);
      assert CompactOf(env, a).steps[i] == Compacted(env, a.steps[i]);
      assert CompactOf(env, b).steps[i] == Compacted(env, b.steps[i]);
    }
  }

  /** Without collisions and with stable scrubbing, compressing the expansion gives the same compact
      form. */
  lemma CompressAgain(env: Env, t: Trajectory)
    requires HashesAreRefs(env) && NoCollision(env, t.steps) && Stable(env, t)
    ensures CompactOf(env, ExpandedOf(CompactOf(env, t))) == CompactOf(env, t)
  {
    var back := ExpandedOf(CompactOf(env, t));
    ExpandCompress(env, t);
    DecisionsRoundTrip(env, t);
    forall i | 0 <= i < |t.steps| ensures Scrubbed(env, back.steps[i]) == Scrubbed(env, t.steps[i]) {
      assert back.steps[i] == Scrubbed(env, t.steps[i]);
    }
    SameCompact(env, back, t);
  }

  lemma TextResolves(env: Env, steps: seq<Step>, i: nat)
    requires HashesAreRefs(env) && NoCollision(env, steps) && i < |steps|
    ensures Resolves(env, steps, Scrub(env, steps[i].input)) && Resolves(env, steps, Scrub(env, steps[i].observation))
  {
    ResolvesUnlessCollision(env, steps);
    EmptyResolves(env, steps);
    var a, b := Scrub(env, steps[i].input), Scrub(env, steps[i].observation);
    assert a != "" ==> Occurs(env, steps, a);
    assert b != "" ==> Occurs(env, steps, b);
  }

  /** If neither the trajectory nor its expansion has two texts with the same hash, compressing again
      changes nothing exactly when scrubbing again changes none of the texts. */
  lemma CompressAgainExactly(env: Env, t: Trajectory)
    requires HashesAreRefs(env) && NoCollision(env, t.steps) && NoCollision(env, ExpandedOf(CompactOf(env, t)).steps)
    ensures CompactOf(env, ExpandedOf(CompactOf(env, t))) == CompactOf(env, t) <==> Stable(env, t)
  {
    var ct := CompactOf(env, t);
    var back := ExpandedOf(ct);
    if Stable(env, t) {
      CompressAgain(env, t);
    }
    if CompactOf(env, back) == ct {
      ExpandCompress(env, t);
      forall i | 0 <= i < |t.steps| ensures ScrubbedOnce(env, t.steps[i].input) && ScrubbedOnce(env, t.steps[i].observation) {
        SameStepTwice(env, t, i);
      }
    }
  }

  lemma SameStepTwice(env: Env, t: Trajectory, i: nat)
    requires HashesAreRefs(env) && i < |t.steps|
    requires var back := ExpandedOf(CompactOf(env, t));
      && CompactOf(env, back) == CompactOf(env, t) && back.steps[i] == Scrubbed(env, t.steps[i])
      && NoCollision(env, t.steps) && NoCollision(env, back.steps)
    ensures ScrubbedOnce(env, t.steps[i].input) && ScrubbedOnce(env, t.steps[i].observation)
  {
    var ct := CompactOf(env, t);
    var back := ExpandedOf(ct);
    assert CompactOf(env, back).steps[i] == Compacted(env, back.steps[i]) && ct.steps[i] == Compacted(env, t.steps[i]);
    assert BlobsOf(env, back.steps) == BlobsOf(env, t.steps);
    TextResolves(env, t.steps, i);
    TextResolves(env, back.steps, i);
  }

  // ---- A trajectory that changes ----

  /** Redacts "a b", which is only there once the white space is normalised. */
  const LATE := Env((s: string) => if s == "a b" then "x" else s, (s: string) => "h" + s)

  const TWO_SPACES: string := "a  b"

  lemma TwoSpacesNormalize()
    ensures Normalize(TWO_SPACES) == "a b" && Normalize("x") == "x"
  {
    WordThenRest([], "a", "  b");
    WordThenRest([], "b", []);
    assert TWO_SPACES == "a" + "  b" && "  b"[1..] == " b" && " b"[1..] == "b" && "b" + [] == "b" && [] + "b" == "b" && [] + "a" == "a";
    assert FieldsFrom([], " b") == FieldsFrom([], "b");
    assert Fields(TWO_SPACES) == ["a", "b"];
    assert ["a", "b"][1..] == ["b"] && "a" + " " + "b" == "a b";
    FieldsOfJoin(["x"]);
  }

  /** A prompt with two spaces is redacted by the second compression, not by the first. */
  lemma UnstableTrajectory(t: Trajectory)
    requires t.prompt == TWO_SPACES
    ensures HashesAreRefs(LATE) && !Stable(LATE, t)
    ensures CompactOf(LATE, t).prompt == "a b" && CompactOf(LATE, ExpandedOf(CompactOf(LATE, t))).prompt == "x"
  {
    TwoSpacesNormalize();
    assert TWO_SPACES[1] == ' ' && TWO_SPACES[2] == ' ' && "a b"[2] == 'b';
    assert Scrub(LATE, TWO_SPACES) == "a b" && Scrub(LATE, "a b") == "x";
    assert "a b" != "x";
  }
}
