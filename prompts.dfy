/**
 * The interactive walk of `process_inputs`: a fixed sequence of prompts, each
 * reading one line and overwriting one setting when the line is non-empty,
 * with three gates that decide which prompts are asked. This module gives the
 * walk as a pure specification over the document and the input lines, and
 * proves what it does; the session class runs it step by step.
 */
module Prompts {
  import opened Errors
  import opened Document

  const Root := "s3server"
  const Server := "S3_SERVER_CONFIG"
  const Auth := "S3_AUTH_CONFIG"
  const Clovis := "S3_CLOVIS_CONFIG"
  const ThirdParty := "S3_THIRDPARTY_CONFIG"

  /** The path of one setting: `options["s3server"][section][key]`. */
  function Setting(section: string, key: string): Path {
    [Root, section, key]
  }

  const StatsFlag: Path := Setting(Server, "S3_ENABLE_STATS")

  /** Every setting the walk can prompt for, in the order of the prompts. */
  const AllLeaves: seq<Path> := [
    // asked unconditionally (15)
    Setting(Server, "S3_REUSEPORT"),
    Setting(Server, "S3_SERVER_IPV4_BIND_ADDR"),
    Setting(Server, "S3_SERVER_IPV6_BIND_ADDR"),
    Setting(Server, "S3_SERVER_BIND_PORT"),
    Setting(Server, "S3_SERVER_DEFAULT_ENDPOINT"),
    Setting(Server, "S3_SERVER_REGION_ENDPOINTS"),
    Setting(Server, "S3_READ_AHEAD_MULTIPLE"),
    Setting(Server, "S3_SERVER_SSL_ENABLE"),
    Setting(Server, "S3_ENABLE_PERF"),
    Setting(Server, "S3_LOG_MODE"),
    Setting(Server, "S3_LOG_ENABLE_BUFFERING"),
    Setting(Server, "S3_ENABLE_AUTH_SSL"),
    Setting(Auth, "S3_AUTH_IP_ADDR"),
    Setting(Auth, "S3_AUTH_PORT"),
    StatsFlag,
    // asked when the stored stats switch is truthy (3)
    Setting(Server, "S3_STATSD_IP_ADDR"),
    Setting(Server, "S3_STATSD_PORT"),
    Setting(Server, "S3_STATS_WHITELIST_FILENAME"),
    // asked when the Clovis question gets a non-empty answer (8)
    Setting(Clovis, "S3_CLOVIS_MAX_UNITS_PER_REQUEST"),
    Setting(Clovis, "S3_CLOVIS_MAX_IDX_FETCH_COUNT"),
    Setting(Clovis, "S3_CLOVIS_TM_RECV_QUEUE_MIN_LEN"),
    Setting(Clovis, "S3_CLOVIS_MAX_RPC_MSG_SIZE"),
    Setting(Clovis, "S3_UNIT_SIZES_FOR_MEMORY_POOL"),
    Setting(Clovis, "S3_CLOVIS_READ_POOL_INITIAL_BUFFER_COUNT"),
    Setting(Clovis, "S3_CLOVIS_READ_POOL_EXPANDABLE_COUNT"),
    Setting(Clovis, "S3_CLOVIS_READ_POOL_MAX_THRESHOLD"),
    // asked when the libevent question gets a non-empty answer (5)
    Setting(ThirdParty, "S3_LIBEVENT_MAX_READ_SIZE"),
    Setting(ThirdParty, "S3_LIBEVENT_POOL_BUFFER_SIZE"),
    Setting(ThirdParty, "S3_LIBEVENT_POOL_INITIAL_SIZE"),
    Setting(ThirdParty, "S3_LIBEVENT_POOL_EXPANDABLE_SIZE"),
    Setting(ThirdParty, "S3_LIBEVENT_POOL_MAX_THRESHOLD")
  ]

  const MainLeaves: seq<Path> := AllLeaves[..15]
  const StatsLeaves: seq<Path> := AllLeaves[15..18]
  const ClovisLeaves: seq<Path> := AllLeaves[18..26]
  const LibeventLeaves: seq<Path> := AllLeaves[26..]

  /** Each path names a key, and no path lies on another's way down. */
  ghost predicate Separate(ps: seq<Path>) {
    && (forall i :: 0 <= i < |ps| ==> ps[i] != [])
    && (forall i, j :: 0 <= i < |ps| && 0 <= j < |ps| && i != j ==> Disjoint(ps[i], ps[j]))
  }

  /** Every path of `ps` is unrelated to `q`. */
  ghost predicate AllDisjoint(ps: seq<Path>, q: Path) {
    forall k :: 0 <= k < |ps| ==> Disjoint(ps[k], q)
  }

  /** No path of `ps` lies strictly above `q`. */
  ghost predicate NoneAbove(ps: seq<Path>, q: Path) {
    forall k :: 0 <= k < |ps| ==> !(ps[k] < q)
  }

  /** Every path of `ps` exists in `doc`. */
  ghost predicate Present(doc: Doc, ps: seq<Path>) {
    forall k :: 0 <= k < |ps| ==> Get(doc, ps[k]).Some?
  }

  lemma SameDepthDisjoint(p: Path, q: Path)
    requires |p| == |q| && p != q
    ensures Disjoint(p, q)
  {
  }

  lemma LeavesDepth()
    ensures forall k :: 0 <= k < |AllLeaves| ==> |AllLeaves[k]| == 3
  {
  }

  lemma LeavesDistinctMain()
    ensures forall i, j :: 0 <= i < j < 15 ==> AllLeaves[i] != AllLeaves[j]
  {
  }

  lemma LeavesDistinctRest()
    ensures forall i, j :: 15 <= i < j < |AllLeaves| ==> AllLeaves[i] != AllLeaves[j]
  {
  }

  lemma LeavesDistinctAcross()
    ensures forall i, j :: 0 <= i < 15 <= j < |AllLeaves| ==> AllLeaves[i] != AllLeaves[j]
  {
  }

  /** The 31 settings are distinct paths three keys deep, so they are pairwise unrelated. */
  lemma LeavesSeparate()
    ensures |AllLeaves| == 31 && AllLeaves[14] == StatsFlag
    ensures Separate(AllLeaves)
  {
    LeavesDepth();
    LeavesDistinctMain();
    LeavesDistinctRest();
    LeavesDistinctAcross();
    forall i, j | 0 <= i < |AllLeaves| && 0 <= j < |AllLeaves| && i != j
      ensures Disjoint(AllLeaves[i], AllLeaves[j])
    {
      if i < j {
        SameDepthDisjoint(AllLeaves[i], AllLeaves[j]);
      } else {
        SameDepthDisjoint(AllLeaves[j], AllLeaves[i]);
      }
    }
  }

  /** A slice of a separate table is separate, and unrelated to the table's other entries. */
  lemma SliceSeparate(ps: seq<Path>, lo: nat, hi: nat, k: nat)
    requires Separate(ps) && lo <= hi <= |ps| && k < |ps| && !(lo <= k < hi)
    ensures Separate(ps[lo..hi])
    ensures AllDisjoint(ps[lo..hi], ps[k])
  {
  }

  /**
   * The state of the walk: the document, how many input lines were read, the
   * settings whose prompt was shown, and the exception that ended the walk.
   */
  datatype Run = Run(doc: Doc, pos: nat, prompts: seq<Path>, failure: Option<Error>)

  /** `input(...) or current`: the raw line when non-empty, else the current value. */
  function Answer(line: string, current: Value): (v: Value)
    ensures line != "" ==> v == Str(line)
    ensures line == "" ==> v == current
  {
    if line != "" then Str(line) else current
  }

  /**
   * One prompt: look the setting up (to show it in the prompt), read a line,
   * and assign `line or current` back to the setting.
   */
  function AskStep(r: Run, leaf: Path, lines: seq<string>): (s: Run)
    ensures r.failure.Some? ==> s == r
    ensures r.failure.None? ==> (s.failure.None? <==> Get(r.doc, leaf).Some? && r.pos < |lines|)
    // the lookup for the prompt text raises before anything is shown or read
    ensures r.failure.None? && Get(r.doc, leaf).None? ==>
      s.failure == Some(MissingSetting(leaf)) && s.prompts == r.prompts
    ensures r.failure.None? && Get(r.doc, leaf).Some? ==> s.prompts == r.prompts + [leaf]
    ensures r.failure.None? && Get(r.doc, leaf).Some? && r.pos >= |lines| ==> s.failure == Some(EndOfInput)
    // an exception leaves the document and the position as they were
    ensures s.failure.Some? ==> s.doc == r.doc && s.pos == r.pos
    ensures s.failure.None? ==> s.pos == r.pos + 1 && s.pos <= |lines|
  {
    if r.failure.Some? then r
    else match Get(r.doc, leaf)
      case None => r.(failure := Some(MissingSetting(leaf)))
      case Some(current) =>
        if r.pos >= |lines| then r.(prompts := r.prompts + [leaf], failure := Some(EndOfInput))
        else r.(doc := Put(r.doc, leaf, Answer(lines[r.pos], current)),
                pos := r.pos + 1,
                prompts := r.prompts + [leaf])
  }

  /** A run of consecutive prompts, stopping at the first exception. */
  function AskAll(r: Run, leaves: seq<Path>, lines: seq<string>): (s: Run)
    ensures r.failure.Some? ==> s == r
    ensures r.pos <= s.pos && (r.pos <= |lines| ==> s.pos <= |lines|)
    // the only exceptions a run raises: end of input, or a missing setting it asks for
    ensures s.failure != r.failure ==>
      s.failure == Some(EndOfInput) || (s.failure.Some? && s.failure.value.MissingSetting?)
    decreases |leaves|
  {
    if leaves == [] then r
    else
      AskAll(AskStep(r, leaves[0], lines), leaves[1..], lines)
  }

  /** "Press any key to continue": one line is read and discarded. */
  function Pause(doc: Doc, lines: seq<string>): (r: Run)
    ensures r.doc == doc && r.prompts == [] && r.pos <= |lines|
    ensures r.failure.None? <==> |lines| > 0
    ensures r.failure.Some? ==> r.failure == Some(EndOfInput)
    // exactly one line is read, unless there is none
    ensures r.failure.None? ==> r.pos == 1
    ensures r.failure.Some? ==> r.pos == 0
  {
    if |lines| == 0 then Run(doc, 0, [], Some(EndOfInput)) else Run(doc, 1, [], None)
  }

  /** The stats switch as the `if` after its prompt reads it. */
  predicate StatsOn(doc: Doc): (b: bool)
    ensures b ==> Get(doc, StatsFlag).Some?
    ensures Get(doc, StatsFlag).Some? ==> (b <==> Truthy(Get(doc, StatsFlag).value))
  {
    match Get(doc, StatsFlag)
    case Some(v) => Truthy(v)
    case None => false
  }

  /** The stats prompts, asked when the stored switch is truthy. */
  function StatsBlock(r: Run, lines: seq<string>): (s: Run)
    ensures r.failure.Some? || !StatsOn(r.doc) ==> s == r
    ensures r.pos <= s.pos && (r.pos <= |lines| ==> s.pos <= |lines|)
  {
    if r.failure.None? && StatsOn(r.doc) then AskAll(r, StatsLeaves, lines) else r
  }

  /**
   * A yes/no question that is read but never stored: any non-empty answer,
   * "no" included, enters the section.
   */
  function Gate(r: Run, leaves: seq<Path>, lines: seq<string>): (g: Run)
    ensures r.failure.Some? ==> g == r
    // the question itself raises EOFError when the input is exhausted
    ensures r.failure.None? && r.pos >= |lines| ==> g == r.(failure := Some(EndOfInput))
    ensures r.failure.None? && r.pos < |lines| && lines[r.pos] == "" ==> g == r.(pos := r.pos + 1)
    ensures r.pos <= g.pos && (r.pos <= |lines| ==> g.pos <= |lines|)
  {
    if r.failure.Some? then r
    else if r.pos >= |lines| then r.(failure := Some(EndOfInput))
    else if lines[r.pos] != "" then AskAll(r.(pos := r.pos + 1), leaves, lines)
    else r.(pos := r.pos + 1)
  }

  /** The main prompts, after the pause. */
  function MainBlock(doc: Doc, lines: seq<string>): (m: Run)
    ensures m.pos <= |lines|
    ensures |lines| == 0 ==> m == Run(doc, 0, [], Some(EndOfInput))
  {
    AskAll(Pause(doc, lines), MainLeaves, lines)
  }

  /** The whole interactive walk over the document `doc` and the input lines. */
  function Walk(doc: Doc, lines: seq<string>): (w: Run)
    ensures w.pos <= |lines|
    ensures w.failure.Some? ==> w.failure == Some(EndOfInput) || w.failure.value.MissingSetting?
  {
    Gate(Gate(StatsBlock(MainBlock(doc, lines), lines), ClovisLeaves, lines), LibeventLeaves, lines)
  }

  // ---------------------------------------------------------------------
  // A run of prompts

  /** Once an exception is raised, no further prompt runs. */
  lemma {:induction false} AskAllFailed(r: Run, leaves: seq<Path>, lines: seq<string>)
    requires r.failure.Some?
    ensures AskAll(r, leaves, lines) == r
    decreases |leaves|
  {
    if leaves != [] {
      AskAllFailed(AskStep(r, leaves[0], lines), leaves[1..], lines);
    }
  }

  /** Prompts change nothing outside the settings they ask for. */
  lemma {:induction false} AskAllFrame(r: Run, leaves: seq<Path>, lines: seq<string>, q: Path)
    requires AllDisjoint(leaves, q)
    ensures Get(AskAll(r, leaves, lines).doc, q) == Get(r.doc, q)
    decreases |leaves|
  {
    if leaves != [] {
      var leaf := leaves[0];
      assert Disjoint(leaf, q);
      if r.failure.None? && Get(r.doc, leaf).Some? && r.pos < |lines| {
        GetAfterPutElsewhere(r.doc, leaf, q, Answer(lines[r.pos], Get(r.doc, leaf).value));
      }
      assert AllDisjoint(leaves[1..], q) by {
        forall k | 0 <= k < |leaves[1..]| ensures Disjoint(leaves[1..][k], q) {
          assert leaves[1..][k] == leaves[k + 1];
        }
      }
      AskAllFrame(AskStep(r, leaf, lines), leaves[1..], lines, q);
    }
  }

  /** Prompts keep the key structure: presence changes only below a prompted setting. */
  lemma {:induction false} AskAllShape(r: Run, leaves: seq<Path>, lines: seq<string>, q: Path)
    requires NoneAbove(leaves, q)
    ensures Get(AskAll(r, leaves, lines).doc, q).Some? == Get(r.doc, q).Some?
    decreases |leaves|
  {
    if leaves != [] {
      var leaf := leaves[0];
      assert !(leaf < q);
      if r.failure.None? && Get(r.doc, leaf).Some? && r.pos < |lines| {
        PutKeepsShape(r.doc, leaf, q, Answer(lines[r.pos], Get(r.doc, leaf).value));
      }
      assert NoneAbove(leaves[1..], q) by {
        forall k | 0 <= k < |leaves[1..]| ensures !(leaves[1..][k] < q) {
          assert leaves[1..][k] == leaves[k + 1];
        }
      }
      AskAllShape(AskStep(r, leaf, lines), leaves[1..], lines, q);
    }
  }

  /** Empty answers keep every value: the document is unchanged, however the run ends. */
  lemma {:induction false} AskAllBlank(r: Run, leaves: seq<Path>, lines: seq<string>)
    requires forall i :: r.pos <= i < |lines| ==> lines[i] == ""
    ensures AskAll(r, leaves, lines).doc == r.doc
    decreases |leaves|
  {
    if leaves != [] {
      var leaf := leaves[0];
      if r.failure.None? && leaf != [] && Get(r.doc, leaf).Some? && r.pos < |lines| {
        PutCurrent(r.doc, leaf);
      }
      AskAllBlank(AskStep(r, leaf, lines), leaves[1..], lines);
    }
  }

  lemma TailSeparate(leaves: seq<Path>)
    requires Separate(leaves) && leaves != []
    ensures Separate(leaves[1..]) && AllDisjoint(leaves[1..], leaves[0])
  {
    forall i, j | 0 <= i < |leaves[1..]| && 0 <= j < |leaves[1..]| && i != j
      ensures Disjoint(leaves[1..][i], leaves[1..][j])
    {
      assert leaves[1..][i] == leaves[i + 1] && leaves[1..][j] == leaves[j + 1];
    }
    forall k | 0 <= k < |leaves[1..]| ensures Disjoint(leaves[1..][k], leaves[0]) {
      assert leaves[1..][k] == leaves[k + 1];
    }
  }

  lemma PresentCons(doc: Doc, leaves: seq<Path>)
    requires leaves != []
    ensures Present(doc, leaves) == (Get(doc, leaves[0]).Some? && Present(doc, leaves[1..]))
  {
    if Get(doc, leaves[0]).Some? && Present(doc, leaves[1..]) {
      forall k | 0 <= k < |leaves| ensures Get(doc, leaves[k]).Some? {
        if k > 0 { assert leaves[k] == leaves[1..][k - 1]; }
      }
    }
  }

  /** A prompt keeps the presence of the settings unrelated to it. */
  lemma AskStepKeepsPresence(r: Run, leaf: Path, lines: seq<string>, rest: seq<Path>)
    requires AllDisjoint(rest, leaf)
    ensures Present(AskStep(r, leaf, lines).doc, rest) == Present(r.doc, rest)
  {
    if r.failure.None? && Get(r.doc, leaf).Some? && r.pos < |lines| {
      forall k | 0 <= k < |rest|
        ensures Get(AskStep(r, leaf, lines).doc, rest[k]).Some? == Get(r.doc, rest[k]).Some?
      {
        assert Disjoint(rest[k], leaf);
        PutKeepsShape(r.doc, leaf, rest[k], Answer(lines[r.pos], Get(r.doc, leaf).value));
      }
    }
  }

  /** A completed run reads one line per prompt and shows every prompt, in order. */
  lemma {:induction false} AskAllConsumes(r: Run, leaves: seq<Path>, lines: seq<string>)
    requires AskAll(r, leaves, lines).failure.None?
    ensures AskAll(r, leaves, lines).pos == r.pos + |leaves|
    ensures AskAll(r, leaves, lines).prompts == r.prompts + leaves
    decreases |leaves|
  {
    if leaves != [] {
      var r1 := AskStep(r, leaves[0], lines);
      AskAllConsumes(r1, leaves[1..], lines);
      assert r.prompts + [leaves[0]] + leaves[1..] == r.prompts + leaves;
    }
  }

  /**
   * A run of prompts completes iff every setting it asks for exists and
   * enough lines remain.
   */
  lemma {:induction false} AskAllCompletes(r: Run, leaves: seq<Path>, lines: seq<string>)
    requires r.failure.None? && r.pos <= |lines| && Separate(leaves)
    ensures AskAll(r, leaves, lines).failure.None? <==>
      Present(r.doc, leaves) && r.pos + |leaves| <= |lines|
    decreases |leaves|
  {
    if leaves != [] {
      var tail := leaves[1..];
      var r1 := AskStep(r, leaves[0], lines);
      assert Present(r.doc, leaves) == (Get(r.doc, leaves[0]).Some? && Present(r.doc, tail)) by {
        PresentCons(r.doc, leaves);
      }
      if r1.failure.Some? {
        AskAllFailed(r1, tail, lines);
      } else {
        assert Separate(tail) && AllDisjoint(tail, leaves[0]) by {
          TailSeparate(leaves);
        }
        assert Present(r1.doc, tail) == Present(r.doc, tail) by {
          AskStepKeepsPresence(r, leaves[0], lines, tail);
        }
        AskAllCompletes(r1, tail, lines);
      }
    }
  }

  /**
   * A run of prompts completes iff every setting it asks for exists and
   * enough lines remain; it then reads one line per prompt and shows them all.
   */
  lemma AskAllOutcome(r: Run, leaves: seq<Path>, lines: seq<string>)
    requires r.failure.None? && r.pos <= |lines| && Separate(leaves)
    ensures AskAll(r, leaves, lines).failure.None? <==>
      Present(r.doc, leaves) && r.pos + |leaves| <= |lines|
    ensures AskAll(r, leaves, lines).failure.None? ==>
      AskAll(r, leaves, lines).pos == r.pos + |leaves| && AskAll(r, leaves, lines).prompts == r.prompts + leaves
  {
    AskAllCompletes(r, leaves, lines);
    if AskAll(r, leaves, lines).failure.None? {
      AskAllConsumes(r, leaves, lines);
    }
  }

  /** After a completed run, the first prompted setting holds its answer. */
  lemma AskAllFirstAnswer(r: Run, leaves: seq<Path>, lines: seq<string>)
    requires r.failure.None? && Separate(leaves) && leaves != []
    requires AskAll(r, leaves, lines).failure.None?
    ensures r.pos < |lines| && Get(r.doc, leaves[0]).Some?
    ensures Get(AskAll(r, leaves, lines).doc, leaves[0]) == Some(Answer(lines[r.pos], Get(r.doc, leaves[0]).value))
  {
    var leaf := leaves[0];
    var r1 := AskStep(r, leaf, lines);
    assert r1.failure.None? && Get(r.doc, leaf).Some? && r.pos < |lines|;
    var x := Answer(lines[r.pos], Get(r.doc, leaf).value);
    assert AllDisjoint(leaves[1..], leaf) by {
      TailSeparate(leaves);
    }
    GetAfterPut(r.doc, leaf, x);
    AskAllFrame(r1, leaves[1..], lines, leaf);
  }

  /**
   * After a completed run, the i-th prompted setting holds the i-th line read
   * when that line is non-empty, and its old value otherwise.
   */
  lemma {:induction false} AskAllAnswers(r: Run, leaves: seq<Path>, lines: seq<string>, i: nat)
    requires r.failure.None? && r.pos <= |lines| && Separate(leaves) && i < |leaves|
    requires AskAll(r, leaves, lines).failure.None?
    ensures r.pos + i < |lines| && Get(r.doc, leaves[i]).Some?
    ensures Get(AskAll(r, leaves, lines).doc, leaves[i]) == Some(Answer(lines[r.pos + i], Get(r.doc, leaves[i]).value))
    decreases |leaves|
  {
    if i == 0 {
      AskAllFirstAnswer(r, leaves, lines);
    } else {
      var leaf := leaves[0];
      var r1 := AskStep(r, leaf, lines);
      assert r1.failure.None? && Get(r.doc, leaf).Some? && r.pos < |lines|;
      assert Get(r1.doc, leaves[i]) == Get(r.doc, leaves[i]) by {
        assert Disjoint(leaf, leaves[i]);
        GetAfterPutElsewhere(r.doc, leaf, leaves[i], Answer(lines[r.pos], Get(r.doc, leaf).value));
      }
      assert Separate(leaves[1..]) by {
        TailSeparate(leaves);
      }
      assert leaves[1..][i - 1] == leaves[i];
      AskAllAnswers(r1, leaves[1..], lines, i - 1);
    }
  }

  // ---------------------------------------------------------------------
  // Gates and the stats block

  /** A gated section changes nothing outside the settings it asks for. */
  lemma GateFrame(r: Run, leaves: seq<Path>, lines: seq<string>, q: Path)
    requires AllDisjoint(leaves, q)
    ensures Get(Gate(r, leaves, lines).doc, q) == Get(r.doc, q)
  {
    if r.failure.None? && r.pos < |lines| && lines[r.pos] != "" {
      AskAllFrame(r.(pos := r.pos + 1), leaves, lines, q);
    }
  }

  lemma GateShape(r: Run, leaves: seq<Path>, lines: seq<string>, q: Path)
    requires NoneAbove(leaves, q)
    ensures Get(Gate(r, leaves, lines).doc, q).Some? == Get(r.doc, q).Some?
  {
    if r.failure.None? && r.pos < |lines| && lines[r.pos] != "" {
      AskAllShape(r.(pos := r.pos + 1), leaves, lines, q);
    }
  }

  /**
   * A gate completes iff its question gets a line and, when that line is
   * non-empty, the section completes; the question itself is not stored.
   */
  lemma GateOutcome(r: Run, leaves: seq<Path>, lines: seq<string>)
    requires r.failure.None? && r.pos <= |lines| && Separate(leaves)
    ensures Gate(r, leaves, lines).failure.None? <==>
      r.pos < |lines| && (lines[r.pos] != "" ==> Present(r.doc, leaves) && r.pos + 1 + |leaves| <= |lines|)
    ensures Gate(r, leaves, lines).failure.None? && lines[r.pos] != "" ==>
      Gate(r, leaves, lines).pos == r.pos + 1 + |leaves| && Gate(r, leaves, lines).prompts == r.prompts + leaves
    ensures Gate(r, leaves, lines).failure.None? && lines[r.pos] == "" ==>
      Gate(r, leaves, lines) == r.(pos := r.pos + 1)
  {
    if r.pos < |lines| && lines[r.pos] != "" {
      AskAllOutcome(r.(pos := r.pos + 1), leaves, lines);
    }
  }

  lemma GateFailed(r: Run, leaves: seq<Path>, lines: seq<string>)
    requires r.failure.Some?
    ensures Gate(r, leaves, lines) == r
  {
  }

  /** Inside an entered section, each setting takes the line typed for it, or keeps its value. */
  lemma GateAnswers(r: Run, leaves: seq<Path>, lines: seq<string>, j: nat)
    requires r.failure.None? && r.pos < |lines| && lines[r.pos] != "" && Separate(leaves) && j < |leaves|
    requires Gate(r, leaves, lines).failure.None?
    ensures r.pos + 1 + j < |lines| && Get(r.doc, leaves[j]).Some?
    ensures Get(Gate(r, leaves, lines).doc, leaves[j]) == Some(Answer(lines[r.pos + 1 + j], Get(r.doc, leaves[j]).value))
  {
    AskAllAnswers(r.(pos := r.pos + 1), leaves, lines, j);
  }

  /** Answering the gate question with an empty line skips the section: no setting changes. */
  lemma GateSkipped(r: Run, leaves: seq<Path>, lines: seq<string>)
    requires r.failure.None? && r.pos < |lines| && lines[r.pos] == ""
    ensures Gate(r, leaves, lines).doc == r.doc
  {
  }

  // ---------------------------------------------------------------------
  // The walk

  /** The settings the walk prompts for are three keys deep. */
  ghost predicate Deep(ps: seq<Path>) {
    forall k :: 0 <= k < |ps| ==> |ps[k]| == 3
  }

  lemma DeepNoneAbove(ps: seq<Path>, q: Path)
    requires Deep(ps) && |q| == 3
    ensures NoneAbove(ps, q)
  {
  }

  /** What the walk relies on about its four blocks. */
  lemma Blocks()
    ensures |MainLeaves| == 15 && MainLeaves[14] == StatsFlag
    ensures |StatsLeaves| == 3 && |ClovisLeaves| == 8 && |LibeventLeaves| == 5
    ensures Separate(MainLeaves) && Separate(StatsLeaves) && Separate(ClovisLeaves) && Separate(LibeventLeaves)
  {
    LeavesSeparate();
    SliceSeparate(AllLeaves, 0, 15, 30);
    SliceSeparate(AllLeaves, 15, 18, 0);
    SliceSeparate(AllLeaves, 18, 26, 0);
    SliceSeparate(AllLeaves, 26, 31, 0);
  }

  lemma BlocksDeep()
    ensures Deep(MainLeaves) && Deep(StatsLeaves) && Deep(ClovisLeaves) && Deep(LibeventLeaves)
  {
    LeavesDepth();
  }

  /** Whether the stats prompts are asked: the answer typed, or else the stored switch, is truthy. */
  predicate StatsAsked(doc: Doc, lines: seq<string>): (b: bool)
    ensures b ==> |lines| > 15
    // any text typed at the stats prompt, "false" included, turns the stats prompts on
    ensures |lines| > 15 && lines[15] != "" ==> b
    ensures |lines| > 15 && lines[15] == "" ==> (b <==> StatsOn(doc))
  {
    |lines| > 15 && (lines[15] != "" || StatsOn(doc))
  }

  /** The index of the line answering the Clovis question. */
  function ClovisGate(doc: Doc, lines: seq<string>): (g: nat)
    ensures g == 16 + if StatsAsked(doc, lines) then |StatsLeaves| else 0
  {
    if StatsAsked(doc, lines) then 19 else 16
  }

  predicate ClovisAsked(doc: Doc, lines: seq<string>): (b: bool)
    ensures b ==> ClovisGate(doc, lines) < |lines|
    // any non-empty answer, "no" included, enters the section
    ensures ClovisGate(doc, lines) < |lines| ==> (b <==> lines[ClovisGate(doc, lines)] != "")
  {
    ClovisGate(doc, lines) < |lines| && lines[ClovisGate(doc, lines)] != ""
  }

  /** The index of the line answering the libevent question. */
  function LibeventGate(doc: Doc, lines: seq<string>): (g: nat)
    ensures g == ClovisGate(doc, lines) + 1 + if ClovisAsked(doc, lines) then |ClovisLeaves| else 0
  {
    ClovisGate(doc, lines) + 1 + if ClovisAsked(doc, lines) then |ClovisLeaves| else 0
  }

  predicate LibeventAsked(doc: Doc, lines: seq<string>): (b: bool)
    ensures b ==> LibeventGate(doc, lines) < |lines|
    ensures LibeventGate(doc, lines) < |lines| ==> (b <==> lines[LibeventGate(doc, lines)] != "")
  {
    LibeventGate(doc, lines) < |lines| && lines[LibeventGate(doc, lines)] != ""
  }

  /** The settings the walk prompts for, in order, as decided by the answers. */
  function Shown(doc: Doc, lines: seq<string>): (s: seq<Path>)
    ensures MainLeaves <= s && |s| <= |AllLeaves|
    ensures StatsAsked(doc, lines) ==> MainLeaves + StatsLeaves <= s
  {
    MainLeaves
      + (if StatsAsked(doc, lines) then StatsLeaves else [])
      + (if ClovisAsked(doc, lines) then ClovisLeaves else [])
      + (if LibeventAsked(doc, lines) then LibeventLeaves else [])
  }

  /** The main block's outcome, and the stats switch it leaves behind. */
  lemma MainOutcome(doc: Doc, lines: seq<string>)
    ensures MainBlock(doc, lines).failure.None? <==> Present(doc, MainLeaves) && |lines| > 15
    ensures MainBlock(doc, lines).failure.None? ==>
      && MainBlock(doc, lines).pos == 16
      && MainBlock(doc, lines).prompts == MainLeaves
      && (StatsOn(MainBlock(doc, lines).doc) <==> StatsAsked(doc, lines))
  {
    var p := Pause(doc, lines);
    var m := MainBlock(doc, lines);
    if |lines| == 0 {
      AskAllFailed(p, MainLeaves, lines);
      return;
    }
    assert Separate(MainLeaves) && |MainLeaves| == 15 && MainLeaves[14] == StatsFlag by {
      Blocks();
    }
    AskAllOutcome(p, MainLeaves, lines);
    if m.failure.None? {
      AskAllAnswers(p, MainLeaves, lines, 14);
      var current := Get(doc, StatsFlag).value;
      assert Get(m.doc, StatsFlag) == Some(Answer(lines[15], current));
      TruthyAnswer(lines[15], current);
    }
  }

  /** `line or current` is truthy iff the line is non-empty or the current value is truthy. */
  lemma TruthyAnswer(line: string, current: Value)
    ensures Truthy(Answer(line, current)) <==> line != "" || Truthy(current)
  {
  }

  /** Prompts three keys deep keep the presence of settings three keys deep. */
  lemma AskAllPresent(r: Run, leaves: seq<Path>, lines: seq<string>, ps: seq<Path>)
    requires Deep(leaves) && Deep(ps)
    ensures Present(AskAll(r, leaves, lines).doc, ps) == Present(r.doc, ps)
  {
    forall k | 0 <= k < |ps|
      ensures Get(AskAll(r, leaves, lines).doc, ps[k]).Some? == Get(r.doc, ps[k]).Some?
    {
      DeepNoneAbove(leaves, ps[k]);
      AskAllShape(r, leaves, lines, ps[k]);
    }
  }

  lemma GatePresent(r: Run, leaves: seq<Path>, lines: seq<string>, ps: seq<Path>)
    requires Deep(leaves) && Deep(ps)
    ensures Present(Gate(r, leaves, lines).doc, ps) == Present(r.doc, ps)
  {
    if r.failure.None? && r.pos < |lines| && lines[r.pos] != "" {
      AskAllPresent(r.(pos := r.pos + 1), leaves, lines, ps);
    }
  }

  lemma StatsBlockPresent(r: Run, lines: seq<string>, ps: seq<Path>)
    requires Deep(StatsLeaves) && Deep(ps)
    ensures Present(StatsBlock(r, lines).doc, ps) == Present(r.doc, ps)
  {
    if r.failure.None? && StatsOn(r.doc) {
      AskAllPresent(r, StatsLeaves, lines, ps);
    }
  }

  lemma PresentConcat(doc: Doc, a: seq<Path>, b: seq<Path>)
    ensures Present(doc, a + b) == (Present(doc, a) && Present(doc, b))
  {
    if Present(doc, a + b) {
      forall k | 0 <= k < |a| ensures Get(doc, a[k]).Some? { assert a[k] == (a + b)[k]; }
      forall k | 0 <= k < |b| ensures Get(doc, b[k]).Some? { assert b[k] == (a + b)[|a| + k]; }
    }
  }

  /** The sections after the main block see the settings the original document has. */
  lemma PresentAfterMain(doc: Doc, lines: seq<string>)
    ensures Present(MainBlock(doc, lines).doc, StatsLeaves) == Present(doc, StatsLeaves)
    ensures Present(StatsBlock(MainBlock(doc, lines), lines).doc, ClovisLeaves) == Present(doc, ClovisLeaves)
    ensures Present(Gate(StatsBlock(MainBlock(doc, lines), lines), ClovisLeaves, lines).doc, LibeventLeaves)
      == Present(doc, LibeventLeaves)
  {
    BlocksDeep();
    var p := Pause(doc, lines);
    var m := MainBlock(doc, lines);
    var s := StatsBlock(m, lines);
    AskAllPresent(p, MainLeaves, lines, StatsLeaves);
    AskAllPresent(p, MainLeaves, lines, ClovisLeaves);
    AskAllPresent(p, MainLeaves, lines, LibeventLeaves);
    StatsBlockPresent(m, lines, ClovisLeaves);
    StatsBlockPresent(m, lines, LibeventLeaves);
    GatePresent(s, ClovisLeaves, lines, LibeventLeaves);
  }

  /** The stats stage, after a completed main block. */
  lemma StatsStage(doc: Doc, lines: seq<string>)
    requires MainBlock(doc, lines).failure.None?
    ensures var s := StatsBlock(MainBlock(doc, lines), lines);
      var sa := if StatsAsked(doc, lines) then StatsLeaves else [];
      && (s.failure.None? <==> Present(doc, sa) && 16 + |sa| <= |lines|)
      && (s.failure.None? ==> s.prompts == MainLeaves + sa && s.pos == ClovisGate(doc, lines))
  {
    Blocks();
    MainOutcome(doc, lines);
    PresentAfterMain(doc, lines);
    if StatsAsked(doc, lines) {
      AskAllOutcome(MainBlock(doc, lines), StatsLeaves, lines);
    }
  }

  /** Two gated sections in a row complete iff each entered section finds its settings and the lines last. */
  lemma TwoGatesComplete(s: Run, a: seq<Path>, b: seq<Path>, lines: seq<string>)
    requires s.failure.None? && s.pos <= |lines| && Separate(a) && Separate(b)
    ensures var c := Gate(s, a, lines);
      var aa := if s.pos < |lines| && lines[s.pos] != "" then a else [];
      var g := s.pos + 1 + |aa|;
      var bb := if g < |lines| && lines[g] != "" then b else [];
      Gate(c, b, lines).failure.None? <==> Present(s.doc, aa) && Present(c.doc, bb) && s.pos + 2 + |aa| + |bb| <= |lines|
  {
    var c := Gate(s, a, lines);
    GateOutcome(s, a, lines);
    if c.failure.None? {
      GateOutcome(c, b, lines);
    } else {
      GateFailed(c, b, lines);
    }
  }

  /** Two completed gated sections add the prompts of the entered sections and read their lines. */
  lemma TwoGatesConsume(s: Run, a: seq<Path>, b: seq<Path>, lines: seq<string>)
    requires s.failure.None? && s.pos <= |lines| && Separate(a) && Separate(b)
    requires Gate(Gate(s, a, lines), b, lines).failure.None?
    ensures var c := Gate(s, a, lines);
      var w := Gate(c, b, lines);
      var aa := if s.pos < |lines| && lines[s.pos] != "" then a else [];
      var g := s.pos + 1 + |aa|;
      var bb := if g < |lines| && lines[g] != "" then b else [];
      w.prompts == s.prompts + aa + bb && w.pos == s.pos + 2 + |aa| + |bb|
  {
    var c := Gate(s, a, lines);
    assert c.failure.None?;
    GateOutcome(s, a, lines);
    GateOutcome(c, b, lines);
  }

  /** Two gated sections in a row, from a run without an exception. */
  lemma TwoGates(s: Run, a: seq<Path>, b: seq<Path>, lines: seq<string>)
    requires s.failure.None? && s.pos <= |lines| && Separate(a) && Separate(b)
    ensures var c := Gate(s, a, lines);
      var w := Gate(c, b, lines);
      var aa := if s.pos < |lines| && lines[s.pos] != "" then a else [];
      var g := s.pos + 1 + |aa|;
      var bb := if g < |lines| && lines[g] != "" then b else [];
      && (w.failure.None? <==> Present(s.doc, aa) && Present(c.doc, bb) && s.pos + 2 + |aa| + |bb| <= |lines|)
      && (w.failure.None? ==> w.prompts == s.prompts + aa + bb && w.pos == s.pos + 2 + |aa| + |bb|)
  {
    TwoGatesComplete(s, a, b, lines);
    if Gate(Gate(s, a, lines), b, lines).failure.None? {
      TwoGatesConsume(s, a, b, lines);
    }
  }

  /** The two gated sections, after a completed stats stage. */
  lemma GatesStage(doc: Doc, lines: seq<string>)
    requires MainBlock(doc, lines).failure.None?
    requires StatsBlock(MainBlock(doc, lines), lines).failure.None?
    ensures var s := StatsBlock(MainBlock(doc, lines), lines);
      var w := Walk(doc, lines);
      var ca := if ClovisAsked(doc, lines) then ClovisLeaves else [];
      var la := if LibeventAsked(doc, lines) then LibeventLeaves else [];
      && (w.failure.None? <==>
            (Present(doc, ca) && Present(doc, la) && s.pos + 2 + |ca| + |la| <= |lines|))
      && (w.failure.None? ==> w.prompts == s.prompts + ca + la && w.pos == s.pos + 2 + |ca| + |la|)
  {
    var s := StatsBlock(MainBlock(doc, lines), lines);
    var c := Gate(s, ClovisLeaves, lines);
    assert s.pos == ClovisGate(doc, lines) <= |lines| by {
      StatsStage(doc, lines);
    }
    assert Present(s.doc, ClovisLeaves) == Present(doc, ClovisLeaves)
        && Present(c.doc, LibeventLeaves) == Present(doc, LibeventLeaves) by {
      PresentAfterMain(doc, lines);
    }
    assert Separate(ClovisLeaves) && Separate(LibeventLeaves) && |ClovisLeaves| == 8 by {
      Blocks();
    }
    var ca := if ClovisAsked(doc, lines) then ClovisLeaves else [];
    assert ca == if s.pos < |lines| && lines[s.pos] != "" then ClovisLeaves else [];
    assert s.pos + 1 + |ca| == LibeventGate(doc, lines);
    assert Walk(doc, lines) == Gate(c, LibeventLeaves, lines);
    TwoGates(s, ClovisLeaves, LibeventLeaves, lines);
  }

  /**
   * The walk completes iff every setting it prompts for exists and the input
   * holds a line for the pause, each prompt and each gate question; it then
   * shows the prompts in order and reads exactly those lines.
   */
  lemma WalkCompletes(doc: Doc, lines: seq<string>)
    ensures Walk(doc, lines).failure.None? <==>
      Present(doc, Shown(doc, lines)) && |Shown(doc, lines)| + 3 <= |lines|
    ensures Walk(doc, lines).failure.None? ==>
      Walk(doc, lines).prompts == Shown(doc, lines) && Walk(doc, lines).pos == |Shown(doc, lines)| + 3
  {
    Blocks();
    MainOutcome(doc, lines);
    var m := MainBlock(doc, lines);
    var sa := if StatsAsked(doc, lines) then StatsLeaves else [];
    var ca := if ClovisAsked(doc, lines) then ClovisLeaves else [];
    var la := if LibeventAsked(doc, lines) then LibeventLeaves else [];
    PresentConcat(doc, MainLeaves, sa);
    PresentConcat(doc, MainLeaves + sa, ca);
    PresentConcat(doc, MainLeaves + sa + ca, la);
    if m.failure.None? {
      StatsStage(doc, lines);
      if StatsBlock(m, lines).failure.None? {
        GatesStage(doc, lines);
      } else {
        GateFailed(StatsBlock(m, lines), ClovisLeaves, lines);
        GateFailed(Gate(StatsBlock(m, lines), ClovisLeaves, lines), LibeventLeaves, lines);
      }
    } else {
      GateFailed(StatsBlock(m, lines), ClovisLeaves, lines);
      GateFailed(Gate(StatsBlock(m, lines), ClovisLeaves, lines), LibeventLeaves, lines);
    }
  }

  lemma AllDisjointConcat(a: seq<Path>, b: seq<Path>, q: Path)
    ensures AllDisjoint(a + b, q) == (AllDisjoint(a, q) && AllDisjoint(b, q))
  {
    if AllDisjoint(a + b, q) {
      forall k | 0 <= k < |a| ensures Disjoint(a[k], q) { assert a[k] == (a + b)[k]; }
      forall k | 0 <= k < |b| ensures Disjoint(b[k], q) { assert b[k] == (a + b)[|a| + k]; }
    }
  }

  /** A completed walk passed through every stage without an exception. */
  lemma StagesCompleted(doc: Doc, lines: seq<string>)
    requires Walk(doc, lines).failure.None?
    ensures MainBlock(doc, lines).failure.None?
    ensures StatsBlock(MainBlock(doc, lines), lines).failure.None?
    ensures Gate(StatsBlock(MainBlock(doc, lines), lines), ClovisLeaves, lines).failure.None?
  {
    var s := StatsBlock(MainBlock(doc, lines), lines);
    if s.failure.Some? {
      GateFailed(s, ClovisLeaves, lines);
      GateFailed(Gate(s, ClovisLeaves, lines), LibeventLeaves, lines);
    } else if Gate(s, ClovisLeaves, lines).failure.Some? {
      GateFailed(Gate(s, ClovisLeaves, lines), LibeventLeaves, lines);
    }
  }

  /** The main and stats stages change nothing apart from the settings they prompt for. */
  lemma EarlyFrame(doc: Doc, lines: seq<string>, q: Path)
    requires AllDisjoint(MainLeaves, q) && (StatsAsked(doc, lines) ==> AllDisjoint(StatsLeaves, q))
    ensures Get(StatsBlock(MainBlock(doc, lines), lines).doc, q) == Get(doc, q)
  {
    var m := MainBlock(doc, lines);
    AskAllFrame(Pause(doc, lines), MainLeaves, lines, q);
    if m.failure.None? && StatsOn(m.doc) {
      MainOutcome(doc, lines);
      AskAllFrame(m, StatsLeaves, lines, q);
    }
  }

  /** The two gated stages change nothing apart from the settings they prompt for. */
  lemma LateFrame(doc: Doc, lines: seq<string>, q: Path)
    requires ClovisAsked(doc, lines) ==> AllDisjoint(ClovisLeaves, q)
    requires LibeventAsked(doc, lines) ==> AllDisjoint(LibeventLeaves, q)
    ensures Get(Walk(doc, lines).doc, q) == Get(StatsBlock(MainBlock(doc, lines), lines).doc, q)
  {
    var s := StatsBlock(MainBlock(doc, lines), lines);
    var c := Gate(s, ClovisLeaves, lines);
    if s.failure.Some? {
      GateFailed(s, ClovisLeaves, lines);
      GateFailed(c, LibeventLeaves, lines);
      return;
    }
    assert s.pos == ClovisGate(doc, lines) by {
      if MainBlock(doc, lines).failure.None? {
        StatsStage(doc, lines);
      }
    }
    if ClovisAsked(doc, lines) {
      GateFrame(s, ClovisLeaves, lines, q);
    }
    if c.failure.Some? {
      GateFailed(c, LibeventLeaves, lines);
      return;
    }
    assert c.pos == LibeventGate(doc, lines) by {
      Blocks();
      GateOutcome(s, ClovisLeaves, lines);
    }
    if LibeventAsked(doc, lines) {
      GateFrame(c, LibeventLeaves, lines, q);
    }
  }

  /**
   * The walk changes nothing apart from the settings it prompts for, whether
   * it completes or stops at an exception.
   */
  lemma WalkFrame(doc: Doc, lines: seq<string>, q: Path)
    requires AllDisjoint(Shown(doc, lines), q)
    ensures Get(Walk(doc, lines).doc, q) == Get(doc, q)
  {
    var sa := if StatsAsked(doc, lines) then StatsLeaves else [];
    var ca := if ClovisAsked(doc, lines) then ClovisLeaves else [];
    var la := if LibeventAsked(doc, lines) then LibeventLeaves else [];
    assert Shown(doc, lines) == MainLeaves + sa + ca + la;
    AllDisjointConcat(MainLeaves + sa + ca, la, q);
    AllDisjointConcat(MainLeaves + sa, ca, q);
    AllDisjointConcat(MainLeaves, sa, q);
    EarlyFrame(doc, lines, q);
    LateFrame(doc, lines, q);
  }

  lemma AllDisjointPrefix(a: seq<Path>, b: seq<Path>, q: Path)
    requires a <= b && AllDisjoint(b, q)
    ensures AllDisjoint(a, q)
  {
    forall k | 0 <= k < |a| ensures Disjoint(a[k], q) {
      assert a[k] == b[k];
    }
  }

  /** The prompts shown so far are never taken back. */
  lemma {:induction false} AskAllGrows(r: Run, leaves: seq<Path>, lines: seq<string>)
    ensures r.prompts <= AskAll(r, leaves, lines).prompts
    decreases |leaves|
  {
    if leaves != [] {
      var r1 := AskStep(r, leaves[0], lines);
      AskAllGrows(r1, leaves[1..], lines);
      assert r.prompts <= r1.prompts;
    }
  }

  /**
   * A run of prompts changes no setting unrelated to every prompt it actually
   * showed, however far it got before an exception.
   */
  lemma {:induction false} AskAllKeeps(r: Run, leaves: seq<Path>, lines: seq<string>, q: Path)
    requires AllDisjoint(AskAll(r, leaves, lines).prompts, q)
    ensures Get(AskAll(r, leaves, lines).doc, q) == Get(r.doc, q)
    decreases |leaves|
  {
    if leaves != [] {
      var leaf := leaves[0];
      var r1 := AskStep(r, leaf, lines);
      var s := AskAll(r1, leaves[1..], lines);
      AskAllKeeps(r1, leaves[1..], lines, q);
      if r1.failure.None? {
        AskAllGrows(r1, leaves[1..], lines);
        assert r1.prompts == r.prompts + [leaf];
        assert s.prompts[|r.prompts|] == leaf;
        GetAfterPutElsewhere(r.doc, leaf, q, Answer(lines[r.pos], Get(r.doc, leaf).value));
      }
    }
  }

  lemma GateGrows(r: Run, leaves: seq<Path>, lines: seq<string>)
    ensures r.prompts <= Gate(r, leaves, lines).prompts
  {
    if r.failure.None? && r.pos < |lines| && lines[r.pos] != "" {
      AskAllGrows(r.(pos := r.pos + 1), leaves, lines);
    }
  }

  /** A gated section changes no setting unrelated to every prompt it actually showed. */
  lemma GateKeeps(r: Run, leaves: seq<Path>, lines: seq<string>, q: Path)
    requires AllDisjoint(Gate(r, leaves, lines).prompts, q)
    ensures Get(Gate(r, leaves, lines).doc, q) == Get(r.doc, q)
  {
    if r.failure.None? && r.pos < |lines| && lines[r.pos] != "" {
      AskAllKeeps(r.(pos := r.pos + 1), leaves, lines, q);
    }
  }

  lemma StatsBlockGrows(r: Run, lines: seq<string>)
    ensures r.prompts <= StatsBlock(r, lines).prompts
  {
    if r.failure.None? && StatsOn(r.doc) {
      AskAllGrows(r, StatsLeaves, lines);
    }
  }

  /** The stats stage changes no setting unrelated to every prompt it actually showed. */
  lemma StatsBlockKeeps(r: Run, lines: seq<string>, q: Path)
    requires AllDisjoint(StatsBlock(r, lines).prompts, q)
    ensures Get(StatsBlock(r, lines).doc, q) == Get(r.doc, q)
  {
    if r.failure.None? && StatsOn(r.doc) {
      AskAllKeeps(r, StatsLeaves, lines, q);
    }
  }

  /**
   * The walk changes no setting unrelated to every prompt it actually showed:
   * when an exception stops it early, the settings it never reached keep
   * their values.
   */
  lemma WalkKeepsUnprompted(doc: Doc, lines: seq<string>, q: Path)
    requires AllDisjoint(Walk(doc, lines).prompts, q)
    ensures Get(Walk(doc, lines).doc, q) == Get(doc, q)
  {
    var p := Pause(doc, lines);
    var m := MainBlock(doc, lines);
    var s := StatsBlock(m, lines);
    var c := Gate(s, ClovisLeaves, lines);
    var w := Gate(c, LibeventLeaves, lines);
    GateKeeps(c, LibeventLeaves, lines, q);
    assert AllDisjoint(c.prompts, q) by {
      GateGrows(c, LibeventLeaves, lines);
      AllDisjointPrefix(c.prompts, w.prompts, q);
    }
    GateKeeps(s, ClovisLeaves, lines, q);
    assert AllDisjoint(s.prompts, q) by {
      GateGrows(s, ClovisLeaves, lines);
      AllDisjointPrefix(s.prompts, c.prompts, q);
    }
    StatsBlockKeeps(m, lines, q);
    assert AllDisjoint(m.prompts, q) by {
      StatsBlockGrows(m, lines);
      AllDisjointPrefix(m.prompts, s.prompts, q);
    }
    AskAllKeeps(p, MainLeaves, lines, q);
  }

  /** When every line is empty, the walk keeps every value, however it ends. */
  lemma WalkBlank(doc: Doc, lines: seq<string>)
    requires forall i :: 0 <= i < |lines| ==> lines[i] == ""
    ensures Walk(doc, lines).doc == doc
  {
    var m := MainBlock(doc, lines);
    AskAllBlank(Pause(doc, lines), MainLeaves, lines);
    if m.failure.None? && StatsOn(m.doc) {
      AskAllBlank(m, StatsLeaves, lines);
    }
  }

  /** The k-th setting is unrelated to every setting of the other blocks. */
  lemma BlockApart(k: nat)
    requires k < |AllLeaves|
    ensures !(k < 15) ==> AllDisjoint(MainLeaves, AllLeaves[k])
    ensures !(15 <= k < 18) ==> AllDisjoint(StatsLeaves, AllLeaves[k])
    ensures !(18 <= k < 26) ==> AllDisjoint(ClovisLeaves, AllLeaves[k])
    ensures !(26 <= k) ==> AllDisjoint(LibeventLeaves, AllLeaves[k])
  {
    LeavesSeparate();
    if !(k < 15) { SliceSeparate(AllLeaves, 0, 15, k); }
    if !(15 <= k < 18) { SliceSeparate(AllLeaves, 15, 18, k); }
    if !(18 <= k < 26) { SliceSeparate(AllLeaves, 18, 26, k); }
    if !(26 <= k) { SliceSeparate(AllLeaves, 26, 31, k); }
  }

  /** The two gated sections leave alone a setting outside both. */
  lemma GatesFrame(s: Run, lines: seq<string>, q: Path)
    requires AllDisjoint(ClovisLeaves, q) && AllDisjoint(LibeventLeaves, q)
    ensures Get(Gate(Gate(s, ClovisLeaves, lines), LibeventLeaves, lines).doc, q) == Get(s.doc, q)
  {
    GateFrame(s, ClovisLeaves, lines, q);
    GateFrame(Gate(s, ClovisLeaves, lines), LibeventLeaves, lines, q);
  }

  /** After a completed main block, a main setting holds the answer typed for it. */
  lemma MainBlockAnswer(doc: Doc, lines: seq<string>, i: nat)
    requires MainBlock(doc, lines).failure.None? && i < |MainLeaves|
    ensures 1 + i < |lines| && Get(doc, MainLeaves[i]).Some?
    ensures Get(MainBlock(doc, lines).doc, MainLeaves[i]) == Some(Answer(lines[1 + i], Get(doc, MainLeaves[i]).value))
  {
    assert Separate(MainLeaves) by {
      Blocks();
    }
    AskAllAnswers(Pause(doc, lines), MainLeaves, lines, i);
  }

  /** The stages after the main block leave a main setting alone. */
  lemma AfterMain(doc: Doc, lines: seq<string>, i: nat)
    requires i < |MainLeaves|
    ensures Get(Walk(doc, lines).doc, MainLeaves[i]) == Get(MainBlock(doc, lines).doc, MainLeaves[i])
  {
    var q := MainLeaves[i];
    var m := MainBlock(doc, lines);
    assert AllDisjoint(StatsLeaves, q) && AllDisjoint(ClovisLeaves, q) && AllDisjoint(LibeventLeaves, q) by {
      Blocks();
      BlockApart(i);
      assert q == AllLeaves[i];
    }
    if m.failure.None? && StatsOn(m.doc) {
      AskAllFrame(m, StatsLeaves, lines, q);
    }
    LateFrame(doc, lines, q);
  }

  /** A main prompt's setting ends up with the line typed for it, or keeps its value. */
  lemma MainAnswer(doc: Doc, lines: seq<string>, i: nat)
    requires Walk(doc, lines).failure.None? && i < |MainLeaves|
    ensures 1 + i < |lines| && Get(doc, MainLeaves[i]).Some?
    ensures Get(Walk(doc, lines).doc, MainLeaves[i]) == Some(Answer(lines[1 + i], Get(doc, MainLeaves[i]).value))
  {
    StagesCompleted(doc, lines);
    MainBlockAnswer(doc, lines, i);
    AfterMain(doc, lines, i);
  }

  /** A stats prompt's setting, when the stats prompts are asked. */
  lemma StatsAnswer(doc: Doc, lines: seq<string>, j: nat)
    requires Walk(doc, lines).failure.None? && StatsAsked(doc, lines) && j < |StatsLeaves|
    ensures 16 + j < |lines| && Get(doc, StatsLeaves[j]).Some?
    ensures Get(Walk(doc, lines).doc, StatsLeaves[j]) == Some(Answer(lines[16 + j], Get(doc, StatsLeaves[j]).value))
  {
    StagesCompleted(doc, lines);
    MainOutcome(doc, lines);
    var q := StatsLeaves[j];
    BlockApart(15 + j);
    assert q == AllLeaves[15 + j];
    var m := MainBlock(doc, lines);
    AskAllFrame(Pause(doc, lines), MainLeaves, lines, q);
    Blocks();
    AskAllAnswers(m, StatsLeaves, lines, j);
    GatesFrame(StatsBlock(m, lines), lines, q);
  }

  /** A Clovis prompt's setting, when the Clovis question got a non-empty answer. */
  lemma ClovisAnswer(doc: Doc, lines: seq<string>, j: nat)
    requires Walk(doc, lines).failure.None? && ClovisAsked(doc, lines) && j < |ClovisLeaves|
    ensures ClovisGate(doc, lines) + 1 + j < |lines| && Get(doc, ClovisLeaves[j]).Some?
    ensures Get(Walk(doc, lines).doc, ClovisLeaves[j])
      == Some(Answer(lines[ClovisGate(doc, lines) + 1 + j], Get(doc, ClovisLeaves[j]).value))
  {
    StagesCompleted(doc, lines);
    var q := ClovisLeaves[j];
    BlockApart(18 + j);
    assert q == AllLeaves[18 + j];
    var m := MainBlock(doc, lines);
    var s := StatsBlock(m, lines);
    assert Get(s.doc, q) == Get(doc, q) by {
      AskAllFrame(Pause(doc, lines), MainLeaves, lines, q);
      if StatsOn(m.doc) {
        AskAllFrame(m, StatsLeaves, lines, q);
      }
    }
    assert s.pos == ClovisGate(doc, lines) by {
      StatsStage(doc, lines);
    }
    Blocks();
    GateAnswers(s, ClovisLeaves, lines, j);
    GateFrame(Gate(s, ClovisLeaves, lines), LibeventLeaves, lines, q);
  }

  /** After a completed Clovis section the input stands at the libevent question. */
  lemma LibeventAt(doc: Doc, lines: seq<string>)
    requires Walk(doc, lines).failure.None?
    ensures Gate(StatsBlock(MainBlock(doc, lines), lines), ClovisLeaves, lines).pos == LibeventGate(doc, lines)
  {
    StagesCompleted(doc, lines);
    var s := StatsBlock(MainBlock(doc, lines), lines);
    Blocks();
    MainOutcome(doc, lines);
    StatsStage(doc, lines);
    GateOutcome(s, ClovisLeaves, lines);
  }

  /** The stages before the libevent section leave a libevent setting alone. */
  lemma BeforeLibevent(doc: Doc, lines: seq<string>, j: nat)
    requires j < |LibeventLeaves|
    ensures Get(Gate(StatsBlock(MainBlock(doc, lines), lines), ClovisLeaves, lines).doc, LibeventLeaves[j])
      == Get(doc, LibeventLeaves[j])
  {
    var q := LibeventLeaves[j];
    BlockApart(26 + j);
    assert q == AllLeaves[26 + j];
    var m := MainBlock(doc, lines);
    AskAllFrame(Pause(doc, lines), MainLeaves, lines, q);
    if m.failure.None? && StatsOn(m.doc) {
      AskAllFrame(m, StatsLeaves, lines, q);
    }
    GateFrame(StatsBlock(m, lines), ClovisLeaves, lines, q);
  }

  /** A libevent prompt's setting, when the libevent question got a non-empty answer. */
  lemma LibeventAnswer(doc: Doc, lines: seq<string>, j: nat)
    requires Walk(doc, lines).failure.None? && LibeventAsked(doc, lines) && j < |LibeventLeaves|
    ensures LibeventGate(doc, lines) + 1 + j < |lines| && Get(doc, LibeventLeaves[j]).Some?
    ensures Get(Walk(doc, lines).doc, LibeventLeaves[j])
      == Some(Answer(lines[LibeventGate(doc, lines) + 1 + j], Get(doc, LibeventLeaves[j]).value))
  {
    var c := Gate(StatsBlock(MainBlock(doc, lines), lines), ClovisLeaves, lines);
    assert c.failure.None? && c.pos == LibeventGate(doc, lines) by {
      StagesCompleted(doc, lines);
      LibeventAt(doc, lines);
    }
    assert Separate(LibeventLeaves) by {
      Blocks();
    }
    BeforeLibevent(doc, lines, j);
    GateAnswers(c, LibeventLeaves, lines, j);
  }
}
