/**
 * The job table of the `schedule` library as healthbot.py uses it: a list
 * of jobs, each with a tag, an interval in seconds and the job it runs.
 * `schedule.clear(tag)` drops every job with that tag and
 * `schedule.every(n).seconds.do(f).tag(tag)` appends one (healthbot.py:79-80,
 * 92-93, 180-181). When jobs fire is not modelled.
 */
module Schedule {

  /** The two jobs the bot registers: `health_check` and `status_report`. */
  datatype Action = RunHealthCheck | RunStatusReport

  datatype Job = Job(tag: string, interval: int, action: Action)

  const CheckTag: string := "check"
  const ReportTag: string := "report"

  /** The jobs carrying tag `t`, in registration order. */
  function Tagged(js: seq<Job>, t: string): seq<Job>
  {
    if js == [] then [] else (if js[0].tag == t then [js[0]] else []) + Tagged(js[1..], t)
  }

  /** Selecting by tag keeps only jobs of the table that carry that tag. */
  lemma {:induction false} TaggedIsSelection(js: seq<Job>, t: string)
    ensures forall j :: j in Tagged(js, t) ==> j in js && j.tag == t
  {
    if js != [] {
      TaggedIsSelection(js[1..], t);
    }
  }

  /** `schedule.clear(t)`: the jobs that remain, in their order. */
  function Clear(js: seq<Job>, t: string): (r: seq<Job>)
    ensures forall j :: j in r ==> j in js && j.tag != t
  {
    if js == [] then []
    else
      var rest := Clear(js[1..], t);
      if js[0].tag == t then rest
      else [js[0]] + rest
  }

  /** After `schedule.clear(t)` no job tagged `t` remains, and the jobs of every other tag are kept as they were. */
  lemma {:induction false} ClearTagged(js: seq<Job>, t: string)
    ensures forall u :: Tagged(Clear(js, t), u) == if u == t then [] else Tagged(js, u)
  {
    if js != [] {
      ClearTagged(js[1..], t);
      var rest := Clear(js[1..], t);
      if js[0].tag != t {
        assert ([js[0]] + rest)[1..] == rest;
      }
    }
  }

  lemma {:induction false} TaggedAppend(a: seq<Job>, b: seq<Job>, t: string)
    ensures Tagged(a + b, t) == Tagged(a, t) + Tagged(b, t)
  {
    if a != [] {
      assert (a + b)[0] == a[0];
      assert (a + b)[1..] == a[1..] + b;
      TaggedAppend(a[1..], b, t);
    } else {
      assert a + b == b;
    }
  }

  /**
   * `schedule.every(n).seconds.do(a).tag(t)`: every job stays where it was
   * and one job tagged `t` is registered after them.
   */
  function Every(js: seq<Job>, t: string, n: int, a: Action): (r: seq<Job>)
    ensures |r| == |js| + 1 && r[..|js|] == js && r[|js|] == Job(t, n, a)
  {
    js + [Job(t, n, a)]
  }

  /** After `schedule.every(n)...tag(t)` the jobs tagged `t` gain the new one at the end; the jobs of every other tag are unchanged. */
  lemma EveryTagged(js: seq<Job>, t: string, n: int, a: Action)
    ensures forall u :: Tagged(Every(js, t, n, a), u) == Tagged(js, u) + (if u == t then [Job(t, n, a)] else [])
  {
    var j := Job(t, n, a);
    assert [j][1..] == [];
    forall u ensures Tagged(js + [j], u) == Tagged(js, u) + (if u == t then [j] else []) {
      TaggedAppend(js, [j], u);
    }
  }

  /**
   * `clear(t)` followed by `every(n)...tag(t)`: exactly one job is tagged `t`,
   * with interval `n`; the jobs of every other tag are unchanged.
   */
  lemma Reschedule(js: seq<Job>, t: string, n: int, a: Action)
    ensures Tagged(Every(Clear(js, t), t, n, a), t) == [Job(t, n, a)]
    ensures forall u :: u != t ==> Tagged(Every(Clear(js, t), t, n, a), u) == Tagged(js, u)
    ensures forall j :: j in Every(Clear(js, t), t, n, a) ==> j in js || j == Job(t, n, a)
  {
    ClearTagged(js, t);
    EveryTagged(Clear(js, t), t, n, a);
  }

  /**
   * The table the bot keeps: exactly one `check` job running `health_check`
   * every `check` seconds, exactly one `report` job running `status_report`
   * every `report` seconds, and no other job.
   */
  predicate JobTable(js: seq<Job>, check: int, report: int)
  {
    && Tagged(js, CheckTag) == [Job(CheckTag, check, RunHealthCheck)]
    && Tagged(js, ReportTag) == [Job(ReportTag, report, RunStatusReport)]
    && forall j :: j in js ==> j.tag == CheckTag || j.tag == ReportTag
  }

  /** The registrations made at start-up (healthbot.py:180-181). */
  function InitialJobs(check: int, report: int): (r: seq<Job>)
    ensures JobTable(r, check, report)
  {
    var c, p := Job(CheckTag, check, RunHealthCheck), Job(ReportTag, report, RunStatusReport);
    assert CheckTag != ReportTag by { assert CheckTag[0] != ReportTag[0]; }
    assert [p][1..] == [];
    assert Tagged([p], CheckTag) == [];
    assert Tagged([p], ReportTag) == [p];
    assert [c, p][1..] == [p];
    [c, p]
  }
}
