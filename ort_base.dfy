/**
 * Session loading of the ONNX Runtime wrapper (`OrtBase`): the per-instance thread
 * budget and the builder settings the CPU and GPU builds apply before the model file is
 * committed.
 *
 * The core count, the build flavour (the `cuda` feature) and the outcome of each builder
 * call are given to the model as a `Platform`; the session itself is the configuration it
 * was built with.
 */
module OrtBase {
  import opened Outcomes

  /** The minimum number of intra-op threads per instance. */
  const MIN_THREADS: nat := 2

  /**
   * `calculate_optimal_threads`: the cores divided evenly among the instances (the
   * remainder dropped), but never fewer than 2. Division by zero instances panics, so
   * there must be at least one.
   */
  function CalculateOptimalThreads(totalCores: nat, totalInstances: nat): (r: nat)
    requires totalInstances > 0
    ensures r >= MIN_THREADS
    ensures r == MIN_THREADS <==> totalCores < (MIN_THREADS + 1) * totalInstances
    ensures r > MIN_THREADS ==> r * totalInstances <= totalCores < (r + 1) * totalInstances
  {
    var perInstance := totalCores / totalInstances;
    assert perInstance * totalInstances <= totalCores < (perInstance + 1) * totalInstances;
    if perInstance < MIN_THREADS then
      assert totalCores < (MIN_THREADS + 1) * totalInstances by {
        assert (perInstance + 1) * totalInstances <= MIN_THREADS * totalInstances;
      }
      MIN_THREADS
    else
      assert perInstance == MIN_THREADS ==> totalCores < (MIN_THREADS + 1) * totalInstances;
      assert perInstance > MIN_THREADS ==> totalCores >= (MIN_THREADS + 1) * totalInstances by {
        if perInstance > MIN_THREADS {
          assert perInstance * totalInstances >= (MIN_THREADS + 1) * totalInstances;
        }
      }
      perInstance
  }

  /** The thread budget never gives the instances more cores than there are, beyond the minimum. */
  lemma ThreadsWithinCores(totalCores: nat, totalInstances: nat)
    requires totalInstances > 0
    ensures var r := CalculateOptimalThreads(totalCores, totalInstances);
      r * totalInstances <= totalCores || r == MIN_THREADS
  {
  }

  /** From two cores per instance on, the budget is the integer quotient of cores by instances. */
  lemma ThreadsAreQuotient(totalCores: nat, totalInstances: nat)
    requires totalInstances > 0 && totalCores / totalInstances >= MIN_THREADS
    ensures CalculateOptimalThreads(totalCores, totalInstances) == totalCores / totalInstances
  {
  }

  /** One core per instance or fewer always gives the minimum. */
  lemma FewCoresGiveMinimum(totalCores: nat, totalInstances: nat)
    requires totalInstances > 0 && totalCores <= totalInstances
    ensures CalculateOptimalThreads(totalCores, totalInstances) == MIN_THREADS
  {
  }

  // ---------------------------------------------------------------------------
  // Session builder
  // ---------------------------------------------------------------------------

  datatype Provider = CpuProvider | CudaProvider

  datatype LogLevel = Warning

  /** The calls on the session builder, in the order the loader makes them. */
  datatype BuilderStep =
    | CreateBuilder
    | SetMimalloc
    | SetIntraThreads
    | SetInterThreads
    | SetExecutionProviders
    | SetLogLevel
    | CommitFromFile
  {
    /** The text the loader puts before the runtime's own error message. */
    function Context(): string {
      match this
      case CreateBuilder => "Failed to create session builder: "
      case SetMimalloc => "Failed to set mimalloc: "
      case SetIntraThreads => "Failed to set intra-op threads: "
      case SetInterThreads => "Failed to set GPU inter-op threads: "
      case SetExecutionProviders => "Failed to build session: "
      case SetLogLevel => "Failed to set log level: "
      case CommitFromFile => "Failed to commit from file: "
    }
  }

  /**
   * What the loader cannot see: the number of CPU cores, whether this is the CPU build
   * (no `cuda` feature), and for every builder call the runtime's error message when it fails.
   */
  datatype Platform = Platform(cpuCores: nat, isCpu: bool, failure: BuilderStep -> Option<string>)

  /** The settings a session builder has collected; a fresh builder has none. */
  datatype Builder = Builder(
    useMimalloc: bool,
    intraThreads: Option<nat>,
    interThreads: Option<nat>,
    providers: seq<Provider>,
    logLevel: Option<LogLevel>)

  /** A committed session: the settings it was built with and the model file it loaded. */
  datatype Session = Session(settings: Builder, modelPath: string)

  const FRESH_BUILDER: Builder := Builder(false, None, None, [], None)

  /** The execution providers of the build: CUDA with the `cuda` feature, the CPU otherwise. */
  function BuildProviders(platform: Platform): seq<Provider> {
    if platform.isCpu then [CpuProvider] else [CudaProvider]
  }

  /** The builder calls the loader makes on a platform, in order, when none fails. */
  function Steps(platform: Platform): seq<BuilderStep> {
    [CreateBuilder]
      + (if platform.isCpu then [SetMimalloc, SetIntraThreads] else [SetInterThreads])
      + [SetExecutionProviders, SetLogLevel, CommitFromFile]
  }

  /** The thread budget is only computed in the CPU build, after the builder was created. */
  predicate ComputesThreads(platform: Platform) {
    platform.isCpu && platform.failure(CreateBuilder).None?
  }

  /** The builder after its thread settings: mimalloc and the thread budget on the CPU, one inter-op thread on the GPU. */
  function Threaded(platform: Platform, totalInstances: nat): Builder
    requires platform.isCpu ==> totalInstances > 0
  {
    if platform.isCpu then
      FRESH_BUILDER.(useMimalloc := true,
                     intraThreads := Some(CalculateOptimalThreads(platform.cpuCores, totalInstances)))
    else
      FRESH_BUILDER.(interThreads := Some(1))
  }

  /** The first builder call among `steps` that fails, if any. */
  function FirstFailure(platform: Platform, steps: seq<BuilderStep>): Option<(BuilderStep, string)> {
    if steps == [] then None
    else match platform.failure(steps[0])
      case Some(e) => Some((steps[0], e))
      case None => FirstFailure(platform, steps[1..])
  }

  /** What `load_model_with_instances` produces: the session, or the first failing call's error. */
  function LoadedSession(platform: Platform, modelPath: string, totalInstances: nat): Result<Session, string>
    requires ComputesThreads(platform) ==> totalInstances > 0
  {
    match FirstFailure(platform, Steps(platform))
    case Some((step, e)) => Err(step.Context() + e)
    case None =>
      assert Steps(platform)[0] == CreateBuilder;
      var settings := Threaded(platform, totalInstances).(
        providers := BuildProviders(platform), logLevel := Some(Warning));
      Ok(Session(settings, modelPath))
  }

  // ---------------------------------------------------------------------------
  // Properties
  // ---------------------------------------------------------------------------

  /**
   * `FirstFailure` finds the first failing call of the list, and only then is there one:
   * the reported call fails with the reported message and every call before it succeeded.
   */
  lemma {:induction false} FirstFailureIsFirst(platform: Platform, steps: seq<BuilderStep>)
    ensures FirstFailure(platform, steps).None? <==>
      forall i :: 0 <= i < |steps| ==> platform.failure(steps[i]).None?
    ensures FirstFailure(platform, steps).Some? ==>
      var (step, e) := FirstFailure(platform, steps).value;
      exists i :: 0 <= i < |steps| && steps[i] == step && platform.failure(steps[i]) == Some(e) &&
        forall j :: 0 <= j < i ==> platform.failure(steps[j]).None?
  {
    if steps != [] {
      FirstFailureIsFirst(platform, steps[1..]);
      if platform.failure(steps[0]).None? {
        assert forall i :: 1 <= i < |steps| ==> steps[i] == steps[1..][i - 1];
        if FirstFailure(platform, steps).Some? {
          var (step, e) := FirstFailure(platform, steps).value;
          var k :| 0 <= k < |steps[1..]| && steps[1..][k] == step && platform.failure(steps[1..][k]) == Some(e) &&
            forall j :: 0 <= j < k ==> platform.failure(steps[1..][j]).None?;
          assert steps[k + 1] == step && platform.failure(steps[k + 1]) == Some(e);
          assert forall j :: 0 <= j < k + 1 ==> platform.failure(steps[j]).None? by {
            forall j | 0 <= j < k + 1
              ensures platform.failure(steps[j]).None?
            {
              if j > 0 {
                assert steps[j] == steps[1..][j - 1];
              }
            }
          }
        }
      } else {
        assert steps[0] == FirstFailure(platform, steps).value.0;
      }
    }
  }

  /**
   * The session is built exactly when none of the platform's builder calls fails;
   * otherwise the error is the message of the first failing call, behind the loader's
   * context text for that call, and every call before it succeeded.
   */
  lemma LoadSucceedsIffNoStepFails(platform: Platform, modelPath: string, totalInstances: nat)
    requires ComputesThreads(platform) ==> totalInstances > 0
    ensures LoadedSession(platform, modelPath, totalInstances).Ok? <==>
      forall i :: 0 <= i < |Steps(platform)| ==> platform.failure(Steps(platform)[i]).None?
    ensures LoadedSession(platform, modelPath, totalInstances).Err? ==>
      exists i :: 0 <= i < |Steps(platform)| && platform.failure(Steps(platform)[i]).Some? &&
        (forall j :: 0 <= j < i ==> platform.failure(Steps(platform)[j]).None?) &&
        LoadedSession(platform, modelPath, totalInstances).error ==
          Steps(platform)[i].Context() + platform.failure(Steps(platform)[i]).value
  {
    FirstFailureIsFirst(platform, Steps(platform));
  }

  /** A failing builder creation is reported as such, whatever else would fail. */
  lemma CreateBuilderFailure(platform: Platform, modelPath: string, totalInstances: nat)
    requires platform.failure(CreateBuilder).Some?
    ensures LoadedSession(platform, modelPath, totalInstances) ==
      Err("Failed to create session builder: " + platform.failure(CreateBuilder).value)
  {
  }

  /**
   * The CPU build enables mimalloc and gives each instance the computed thread budget,
   * leaving the inter-op threads alone; the session uses the CPU provider.
   */
  lemma CpuSettings(platform: Platform, modelPath: string, totalInstances: nat)
    requires platform.isCpu && totalInstances > 0
    requires LoadedSession(platform, modelPath, totalInstances).Ok?
    ensures var s := LoadedSession(platform, modelPath, totalInstances).value;
      && s.settings.useMimalloc
      && s.settings.intraThreads == Some(CalculateOptimalThreads(platform.cpuCores, totalInstances))
      && s.settings.interThreads.None?
      && s.settings.providers == [CpuProvider]
      && s.settings.logLevel == Some(Warning)
      && s.modelPath == modelPath
  {
  }

  /**
   * The GPU build only sets one inter-op thread and never computes a thread budget, so it
   * accepts zero instances; the session uses the CUDA provider.
   */
  lemma GpuSettings(platform: Platform, modelPath: string, totalInstances: nat)
    requires !platform.isCpu
    requires LoadedSession(platform, modelPath, totalInstances).Ok?
    ensures var s := LoadedSession(platform, modelPath, totalInstances).value;
      && !s.settings.useMimalloc
      && s.settings.intraThreads.None?
      && s.settings.interThreads == Some(1)
      && s.settings.providers == [CudaProvider]
      && s.settings.logLevel == Some(Warning)
      && s.modelPath == modelPath
  {
  }

  // ---------------------------------------------------------------------------
  // The loader
  // ---------------------------------------------------------------------------

  /** A model holding an ONNX Runtime session once one has been loaded. */
  class OrtModel {
    var sess: Option<Session>

    constructor()
      ensures sess.None?
    {
      sess := None;
    }

    /**
     * `load_model_with_instances`: configures a builder and commits the model file; the
     * session is stored only when every call succeeds.
     */
    method LoadModelWithInstances(platform: Platform, modelPath: string, totalInstances: nat)
      returns (r: Result<(), string>)
      requires ComputesThreads(platform) ==> totalInstances > 0
      modifies this
      ensures r.Ok? <==> LoadedSession(platform, modelPath, totalInstances).Ok?
      ensures r.Ok? ==> sess == Some(LoadedSession(platform, modelPath, totalInstances).value)
      ensures r.Err? ==> r.error == LoadedSession(platform, modelPath, totalInstances).error
      ensures r.Err? ==> sess == old(sess)
    {
      var fail := platform.failure;
      ghost var pending := Steps(platform);
      if fail(CreateBuilder).Some? {
        return Err(CreateBuilder.Context() + fail(CreateBuilder).value);
      }
      pending := pending[1..];
      assert FirstFailure(platform, Steps(platform)) == FirstFailure(platform, pending);
      var builder := FRESH_BUILDER;
      if platform.isCpu {
        assert pending == [SetMimalloc, SetIntraThreads, SetExecutionProviders, SetLogLevel, CommitFromFile];
        var optimalThreads := CalculateOptimalThreads(platform.cpuCores, totalInstances);
        if fail(SetMimalloc).Some? {
          return Err(SetMimalloc.Context() + fail(SetMimalloc).value);
        }
        builder := builder.(useMimalloc := true);
        pending := pending[1..];
        assert FirstFailure(platform, Steps(platform)) == FirstFailure(platform, pending);
        if fail(SetIntraThreads).Some? {
          return Err(SetIntraThreads.Context() + fail(SetIntraThreads).value);
        }
        builder := builder.(intraThreads := Some(optimalThreads));
        pending := pending[1..];
        assert FirstFailure(platform, Steps(platform)) == FirstFailure(platform, pending);
      } else {
        assert pending == [SetInterThreads, SetExecutionProviders, SetLogLevel, CommitFromFile];
        if fail(SetInterThreads).Some? {
          return Err(SetInterThreads.Context() + fail(SetInterThreads).value);
        }
        builder := builder.(interThreads := Some(1));
        pending := pending[1..];
        assert FirstFailure(platform, Steps(platform)) == FirstFailure(platform, pending);
      }
      assert builder == Threaded(platform, totalInstances);
      assert pending == [SetExecutionProviders, SetLogLevel, CommitFromFile];
      if fail(SetExecutionProviders).Some? {
        return Err(SetExecutionProviders.Context() + fail(SetExecutionProviders).value);
      }
      builder := builder.(providers := BuildProviders(platform));
      pending := pending[1..];
      assert FirstFailure(platform, Steps(platform)) == FirstFailure(platform, pending);
      if fail(SetLogLevel).Some? {
        return Err(SetLogLevel.Context() + fail(SetLogLevel).value);
      }
      builder := builder.(logLevel := Some(Warning));
      pending := pending[1..];
      assert FirstFailure(platform, Steps(platform)) == FirstFailure(platform, pending);
      if fail(CommitFromFile).Some? {
        return Err(CommitFromFile.Context() + fail(CommitFromFile).value);
      }
      assert FirstFailure(platform, pending[1..]) == None;
      sess := Some(Session(builder, modelPath));
      r := Ok(());
    }

    /** `load_model`: loading for a single instance. */
    method LoadModel(platform: Platform, modelPath: string) returns (r: Result<(), string>)
      modifies this
      ensures r.Ok? <==> LoadedSession(platform, modelPath, 1).Ok?
      ensures r.Ok? ==> sess == Some(LoadedSession(platform, modelPath, 1).value)
      ensures r.Err? ==> r.error == LoadedSession(platform, modelPath, 1).error
      ensures r.Err? ==> sess == old(sess)
    {
      r := LoadModelWithInstances(platform, modelPath, 1);
    }
  }
}
