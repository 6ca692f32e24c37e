/** `PushWidget::StartStop`, the main button's click handler, as a decision
    over what the host reports. The libobs handles are represented by the
    settings the plugin puts into them. */
module StartStop {

  import opened Wrappers
  import opened TargetRecord

  /** The video and audio encoders of the host's primary streaming output. */
  datatype Encoders = Encoders(video: nat, audio: nat)

  /** A target's own output with its attached custom service: the encoders
      borrowed for it and the service's `server` and `key` settings. */
  datatype Output = Output(encoders: Option<Encoders>, server: string, key: string)

  /** An output just created by `obs_output_create` with a fresh
      `rtmp_custom` service attached: no encoders, empty settings. */
  const Fresh: Output := Output(None, "", "")

  /** What the click does to the host besides creating the output. */
  datatype Action =
    | StartOutput   // `obs_output_start` with the borrowed encoders and the target's server and key
    | NoPrimary     // the "use the main stream button once" notice; nothing is started
    | ForceStop     // `obs_output_force_stop`, a no-op when there is no output

  /** `createAttempted`: the click called `obs_output_create` and
      `obs_service_create`. `output` is the target's output afterwards, `None`
      while it is still a null pointer. */
  datatype Outcome = Outcome(createAttempted: bool, output: Option<Output>, action: Action)

  /** One click. `existing` is the target's output, if one was created
      before; `createOk` is whether `obs_output_create` returns an output
      should it be called; `active` is `obs_output_active` on an existing
      output (a freshly created output is inactive); `primary` is the primary
      streaming output's encoders, if there is a primary streaming output.
      A failed creation leaves the output null, and the click ends in the
      force-stop branch. */
  function Click(existing: Option<Output>, createOk: bool, active: bool, primary: Option<Encoders>, t: Target): (r: Outcome)
    ensures r.createAttempted <==> existing.None?
    ensures r.output.None? <==> existing.None? && !createOk
    ensures r.action == ForceStop <==> (existing.Some? && active) || r.output.None?
    ensures r.action == NoPrimary <==> r.output.Some? && !(existing.Some? && active) && primary.None?
    ensures r.action == StartOutput ==>
              r.output == Some(Output(primary, t.path, t.key))
    ensures r.action != StartOutput && r.output.Some? ==>
              r.output.value == (if existing.Some? then existing.value else Fresh)
  {
    var out := if existing.Some? then existing else if createOk then Some(Fresh) else None;
    var isActive := existing.Some? && active;
    if out.Some? && !isActive then
      match primary
      case Some(enc) => Outcome(existing.None?, Some(out.value.(encoders := Some(enc), server := t.path, key := t.key)), StartOutput)
      case None => Outcome(existing.None?, out, NoPrimary)
    else
      Outcome(existing.None?, out, ForceStop)
  }

  /** What the host reports at the moment of one click. */
  datatype Host = Host(createOk: bool, active: bool, primary: Option<Encoders>)

  /** A sequence of clicks on one target: its output at the end and how many
      times an output and a service were created. */
  function Clicks(existing: Option<Output>, hosts: seq<Host>, t: Target): (Option<Output>, nat)
    decreases |hosts|
  {
    if hosts == [] then (existing, 0)
    else
      var r := Click(existing, hosts[0].createOk, hosts[0].active, hosts[0].primary, t);
      var (out, n) := Clicks(r.output, hosts[1..], t);
      (out, n + (if r.createAttempted then 1 else 0))
  }

  /** The number of leading clicks whose output creation would fail. */
  function FailedCreates(hosts: seq<Host>): (n: nat)
    ensures n <= |hosts|
    ensures forall i :: 0 <= i < n ==> !hosts[i].createOk
    ensures n < |hosts| ==> hosts[n].createOk
    decreases |hosts|
  {
    if hosts == [] || hosts[0].createOk then 0 else 1 + FailedCreates(hosts[1..])
  }

  /** Creation is retried on every click until it succeeds, and never after:
      a target without an output creates one (and a service) once per failed
      click plus once for the click that succeeds; a target with an output
      creates nothing. */
  lemma {:induction false} CreationAttempts(existing: Option<Output>, hosts: seq<Host>, t: Target)
    ensures existing.Some? ==> Clicks(existing, hosts, t) == (Clicks(existing, hosts, t).0, 0)
    ensures existing.Some? ==> Clicks(existing, hosts, t).0.Some?
    ensures existing.None? ==>
      Clicks(existing, hosts, t).1 == FailedCreates(hosts) + (if FailedCreates(hosts) < |hosts| then 1 else 0)
    ensures existing.None? ==>
      (Clicks(existing, hosts, t).0.Some? <==> FailedCreates(hosts) < |hosts|)
    decreases |hosts|
  {
    if hosts != [] {
      var r := Click(existing, hosts[0].createOk, hosts[0].active, hosts[0].primary, t);
      CreationAttempts(r.output, hosts[1..], t);
      if existing.None? && !hosts[0].createOk {
        assert FailedCreates(hosts) == 1 + FailedCreates(hosts[1..]);
      }
    }
  }

  /** When creation succeeds, the output and its service are created at most
      once per target: on the first click, and never again once they exist. */
  lemma CreatedAtMostOnce(existing: Option<Output>, hosts: seq<Host>, t: Target)
    requires forall i :: 0 <= i < |hosts| ==> hosts[i].createOk
    ensures Clicks(existing, hosts, t).1 <= 1
    ensures hosts != [] ==> Clicks(existing, hosts, t).0.Some? && Clicks(existing, hosts, t).1 == (if existing.None? then 1 else 0)
  {
    CreationAttempts(existing, hosts, t);
  }

  /** Without a primary streaming output an inactive target starts nothing,
      and clicking again changes nothing: the same notice, the same output,
      no second creation. */
  lemma NoPrimaryIdempotent(existing: Option<Output>, createOk: bool, createOk': bool, t: Target)
    ensures var r := Click(existing, createOk, false, None, t);
      r.output.Some? ==>
        r.action == NoPrimary
        && Click(r.output, createOk', false, None, t) == Outcome(false, r.output, NoPrimary)
  {
  }

  /** A start always configures the output completely from the primary's
      encoders and the target: nothing left from an earlier start survives. */
  lemma StartForgetsPrevious(o1: Output, o2: Output, ok1: bool, ok2: bool, enc: Encoders, t: Target)
    ensures Click(Some(o1), ok1, false, Some(enc), t).output == Click(Some(o2), ok2, false, Some(enc), t).output
  {
  }
}
