/**
 * The training-options dictionary of the Bayesian network: the sanity checks
 * setTrainOptions makes before storing it, and the typed reading of the
 * entries the training loop later looks up.
 */
module TrainOptions {
  import opened Wrappers
  import opened Convergence

  /** A value of the training-options dictionary. */
  datatype Value =
    | Int(i: int)
    | Real(r: real)
    | Bool(b: bool)
    | Text(s: string)
    | Names(names: seq<string>)
      /** The "drop" entry, a dictionary whose only key is "min_r2" (a threshold or None). */
    | DropCriteria(minR2: Option<real>)

  type Options = map<string, Value>

  /** The keys setTrainOptions asserts to be present, in the order it asserts them. */
  const RequiredKeys: seq<string> := [
    "maxiter", "start_drop", "freq_drop", "verbose", "quiet", "tolerance",
    "convergence_mode", "forceiter", "schedule", "start_sparsity", "gpu_mode", "start_elbo"
  ]

  /** Position in `keys` of the first key that `opts` lacks. */
  function FirstMissing(keys: seq<string>, opts: Options): (r: Option<nat>)
    ensures r.None? <==> forall k :: k in keys ==> k in opts
    ensures r.Some? ==> r.value < |keys| && keys[r.value] !in opts
    ensures r.Some? ==> forall j :: 0 <= j < r.value ==> keys[j] in opts
  {
    if |keys| == 0 then None
    else if keys[0] !in opts then Some(0)
    else match FirstMissing(keys[1..], opts)
      case None => None
      case Some(j) => Some(j + 1)
  }

  /** The text of the AssertionError raised for a missing key that the message names as `named`. */
  function Message(named: string): string
  {
    "'" + named + "' not found in the training options dictionary"
  }

  /** Different names give different messages. */
  lemma MessageInjective(a: string, b: string)
    requires Message(a) == Message(b)
    ensures a == b
  {
    var pre := "'";
    var post := "' not found in the training options dictionary";
    assert Message(a) == pre + a + post;
    assert Message(b) == pre + b + post;
    assert |a| == |b|;
    forall i | 0 <= i < |a|
      ensures a[i] == b[i]
    {
      assert Message(a)[i + 1] == a[i];
      assert Message(b)[i + 1] == b[i];
    }
  }

  /** The key each assertion's message names, as the source writes the messages. */
  function MessageKeyAsWritten(key: string): string
  {
    if key == "start_elbo" then "gpu_mode" else key
  }

  /** setTrainOptions' checks with the messages as written: None when all pass. */
  function CheckAsWritten(opts: Options): Option<string>
  {
    match FirstMissing(RequiredKeys, opts)
    case None => None
    case Some(j) => Some(Message(MessageKeyAsWritten(RequiredKeys[j])))
  }

  /**
   * With every required key but start_elbo present, the check as written fails
   * with a message that names gpu_mode, a key that is present.
   */
  lemma StartElboMessageAsWritten(opts: Options)
    requires forall k :: k in RequiredKeys && k != "start_elbo" ==> k in opts
    requires "start_elbo" !in opts
    ensures CheckAsWritten(opts) == Some(Message("gpu_mode"))
    ensures "gpu_mode" in opts
  {
    var r := FirstMissing(RequiredKeys, opts);
    assert RequiredKeys[11] == "start_elbo";
    assert forall j :: 0 <= j < 11 ==> RequiredKeys[j] in RequiredKeys && RequiredKeys[j] != "start_elbo";
    assert r == Some(11);
    assert RequiredKeys[10] == "gpu_mode";
  }

  /**
   * setTrainOptions' checks, each message naming the key it checks: None when
   * every required key is present, otherwise the message for the first missing one.
   */
  function CheckTrainOptions(opts: Options): (r: Option<string>)
    ensures r.None? <==> forall k :: k in RequiredKeys ==> k in opts
    ensures r.Some? ==> exists k :: k in RequiredKeys && k !in opts && r.value == Message(k)
  {
    match FirstMissing(RequiredKeys, opts)
    case None => None
    case Some(j) => Some(Message(RequiredKeys[j]))
  }

  /** A failed check names a key that is indeed missing. */
  lemma {:induction false} CheckNamesMissingKey(opts: Options, named: string)
    requires CheckTrainOptions(opts) == Some(Message(named))
    ensures named in RequiredKeys && named !in opts
  {
    var k :| k in RequiredKeys && k !in opts && Message(named) == Message(k);
    MessageInjective(named, k);
  }

  /**
   * The entries the training loop reads, as the loop uses them. start_drop and
   * start_sparsity are only compared with iteration numbers, so any number will
   * do; their fields hold the least integer at or above it.
   */
  datatype Settings = Settings(
    maxiter: int,
    startDrop: int,
    freqDrop: int,
    minR2: Option<real>,
    schedule: seq<string>,
    startSparsity: int,
    startElbo: int,
    elbofreq: int,
    forceiter: bool,
    convergenceMode: string,
    tauTrick: bool)

  /** The extra entries the stochastic training loop reads. */
  datatype StochasticSettings = StochasticSettings(
    batchSize: real,
    startStochastic: int,
    learningRate: real,
    forgettingRate: real)

  /** The number a value stands for in Python arithmetic: an int, a float, or a bool (True is 1). */
  function Number(v: Value): Option<real>
  {
    match v
    case Int(i) => Some(i as real)
    case Real(r) => Some(r)
    case Bool(b) => Some(if b then 1.0 else 0.0)
    case _ => None
  }

  /** A number without a fractional part, such as 3 or 3.0. */
  predicate Whole(v: Value)
  {
    Number(v).Some? && Number(v).value.Floor as real == Number(v).value
  }

  /**
   * Python's truth value: non-zero numbers, non-empty strings and lists are
   * true, and so is the drop dictionary, which always holds its one key.
   */
  function Truthy(v: Value): bool
  {
    match v
    case Int(i) => i != 0
    case Real(r) => r != 0.0
    case Bool(b) => b
    case Text(s) => |s| > 0
    case Names(names) => |names| > 0
    case DropCriteria(_) => true
  }

  /** t is the least integer at or above x. */
  predicate CeilOf(t: int, x: real)
  {
    (t - 1) as real < x <= t as real
  }

  /** Comparing an iteration number with x is comparing it with the ceiling of x. */
  lemma CeilComparesAlike(t: int, x: real, i: int)
    requires CeilOf(t, x)
    ensures i as real >= x <==> i >= t
    ensures i as real < x <==> i < t
  {
    if i < t {
      assert i as real <= (t - 1) as real;
    }
  }

  function GetInt(o: Options, k: string): (r: Option<int>)
    ensures r.Some? <==> k in o && o[k].Int?
    ensures r.Some? ==> o[k] == Int(r.value)
  {
    if k in o && o[k].Int? then Some(o[k].i) else None
  }

  /** A numeric entry, at the number Python computes with. */
  function GetReal(o: Options, k: string): (r: Option<real>)
    ensures r.Some? <==> k in o && Number(o[k]).Some?
    ensures r.Some? ==> Number(o[k]) == r
  {
    if k in o then Number(o[k]) else None
  }

  /** A whole-number entry, read as an integer. */
  function GetWhole(o: Options, k: string): (r: Option<int>)
    ensures r.Some? <==> k in o && Whole(o[k])
    ensures r.Some? ==> Number(o[k]) == Some(r.value as real)
  {
    if k in o && Whole(o[k]) then Some(Number(o[k]).value.Floor) else None
  }

  /** A numeric entry that is only compared with iteration numbers, read as its ceiling. */
  function GetCeil(o: Options, k: string): (r: Option<int>)
    ensures r.Some? <==> k in o && Number(o[k]).Some?
    ensures r.Some? ==> CeilOf(r.value, Number(o[k]).value)
  {
    if k in o && Number(o[k]).Some? then Some(-((-Number(o[k]).value).Floor)) else None
  }

  function GetBool(o: Options, k: string): (r: Option<bool>)
    ensures r.Some? <==> k in o && o[k].Bool?
    ensures r.Some? ==> o[k] == Bool(r.value)
  {
    if k in o && o[k].Bool? then Some(o[k].b) else None
  }

  function GetNames(o: Options, k: string): (r: Option<seq<string>>)
    ensures r.Some? <==> k in o && o[k].Names?
    ensures r.Some? ==> o[k] == Names(r.value)
  {
    if k in o && o[k].Names? then Some(o[k].names) else None
  }

  function GetDrop(o: Options, k: string): (r: Option<Option<real>>)
    ensures r.Some? <==> k in o && o[k].DropCriteria?
    ensures r.Some? ==> o[k] == DropCriteria(r.value)
  {
    if k in o && o[k].DropCriteria? then Some(o[k].minR2) else None
  }

  /**
   * The convergence mode as assess_convergence compares it with "fast",
   * "medium" and "slow". A value that is not a string equals none of them; it is
   * read as the empty string, which equals none of them either.
   */
  function ModeOf(v: Value): (r: string)
    ensures Threshold(r).Some? <==> v == Text("fast") || v == Text("medium") || v == Text("slow")
    ensures v.Text? ==> r == v.s
  {
    if v.Text? then v.s else ""
  }

  /** `o` maps `k` to `v`. */
  predicate Entry(o: Options, k: string, v: Value)
  {
    k in o && o[k] == v
  }

  /**
   * Every entry the training loop looks up is present, with a type the loop can
   * compute with. forceiter, convergence_mode and "stochastic" are only tested
   * for truth or compared with strings, so any value will do.
   */
  predicate Readable(o: Options)
  {
    && "maxiter" in o && o["maxiter"].Int?
    && "start_drop" in o && Number(o["start_drop"]).Some?
    && "freq_drop" in o && Whole(o["freq_drop"])
    && "drop" in o && o["drop"].DropCriteria?
    && "schedule" in o && o["schedule"].Names?
    && "start_sparsity" in o && Number(o["start_sparsity"]).Some?
    && "start_elbo" in o && Whole(o["start_elbo"])
    && "elbofreq" in o && o["elbofreq"].Int?
    && "forceiter" in o
    && "convergence_mode" in o
    && "Y_ELBO_TauTrick" in o && o["Y_ELBO_TauTrick"].Bool?
    && "stochastic" in o
  }

  /**
   * The settings the training loop looks up in the stored dictionary; None when
   * one of them is absent or of a type the model does not run the loop with.
   */
  function ReadSettings(o: Options): (r: Option<Settings>)
    ensures r.Some? <==> Readable(o)
    ensures r.Some? ==>
      && Entry(o, "maxiter", Int(r.value.maxiter))
      && CeilOf(r.value.startDrop, Number(o["start_drop"]).value)
      && Number(o["freq_drop"]) == Some(r.value.freqDrop as real)
      && Entry(o, "drop", DropCriteria(r.value.minR2))
      && Entry(o, "schedule", Names(r.value.schedule))
      && CeilOf(r.value.startSparsity, Number(o["start_sparsity"]).value)
      && Number(o["start_elbo"]) == Some(r.value.startElbo as real)
      && Entry(o, "elbofreq", Int(r.value.elbofreq))
      && r.value.forceiter == Truthy(o["forceiter"])
      && (Threshold(r.value.convergenceMode).Some? <==>
            o["convergence_mode"] == Text("fast") || o["convergence_mode"] == Text("medium") || o["convergence_mode"] == Text("slow"))
      && (o["convergence_mode"].Text? ==> r.value.convergenceMode == o["convergence_mode"].s)
      && Entry(o, "Y_ELBO_TauTrick", Bool(r.value.tauTrick))
  {
    var maxiter :- GetInt(o, "maxiter");
    var startDrop :- GetCeil(o, "start_drop");
    var freqDrop :- GetWhole(o, "freq_drop");
    var minR2 :- GetDrop(o, "drop");
    var schedule :- GetNames(o, "schedule");
    var startSparsity :- GetCeil(o, "start_sparsity");
    var startElbo :- GetWhole(o, "start_elbo");
    var elbofreq :- GetInt(o, "elbofreq");
    var tauTrick :- GetBool(o, "Y_ELBO_TauTrick");
    if "forceiter" !in o || "convergence_mode" !in o || "stochastic" !in o then None else
    Some(Settings(maxiter, startDrop, freqDrop, minR2, schedule, startSparsity, startElbo,
                  elbofreq, Truthy(o["forceiter"]), ModeOf(o["convergence_mode"]), tauTrick))
  }

  /** The stochastic loop's extra settings, read the same way. */
  function ReadStochasticSettings(o: Options): (r: Option<StochasticSettings>)
    ensures r.Some? <==>
      && "batch_size" in o && Number(o["batch_size"]).Some?
      && "start_stochastic" in o && Whole(o["start_stochastic"])
      && "learning_rate" in o && Number(o["learning_rate"]).Some?
      && "forgetting_rate" in o && Number(o["forgetting_rate"]).Some?
    ensures r.Some? ==>
      && Number(o["batch_size"]) == Some(r.value.batchSize)
      && Number(o["start_stochastic"]) == Some(r.value.startStochastic as real)
      && Number(o["learning_rate"]) == Some(r.value.learningRate)
      && Number(o["forgetting_rate"]) == Some(r.value.forgettingRate)
  {
    var batchSize :- GetReal(o, "batch_size");
    var start :- GetWhole(o, "start_stochastic");
    var learningRate :- GetReal(o, "learning_rate");
    var forgettingRate :- GetReal(o, "forgetting_rate");
    Some(StochasticSettings(batchSize, start, learningRate, forgettingRate))
  }
}
