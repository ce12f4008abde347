/** The state of AsyncTrajectoryCollector that decides what is generated next, and its loops over target lists. */
module AsyncCollector {
  import opened Sequences
  import opened AsyncProtocol

  class AsyncTrajectoryCollector {
    const config: Config                    // config.start is initial_weight_version
    var currentWeightVersion: int
    var generatingTargets: set<int>
    var generationLimitCleared: bool

    constructor (config: Config)
      ensures this.config == config && currentWeightVersion == config.start
      ensures generatingTargets == {} && generationLimitCleared
    {
      this.config := config;
      currentWeightVersion := config.start;
      generatingTargets := {};
      generationLimitCleared := true;
    }

    method CalculateTargetWeights(generationWeightVersion: int) returns (targets: seq<int>)
      ensures targets == TargetWeights(config, generationWeightVersion)
    {
      if generationWeightVersion == config.start {
        return Range(config.start, config.start + config.maxAge + 1);
      }
      targets := [];
      for i := 1 to config.maxAge + 1
        invariant targets == Range(generationWeightVersion + 1, generationWeightVersion + i)
      {
        targets := targets + [generationWeightVersion + i];
      }
    }

    /** Reserves the first target that has not arrived and is not being generated, if there is one; `last` is what
        the buffer answered before the lock was taken. */
    method GetNextTargetForGeneration(generationWeightVersion: int, last: int) returns (target: Option<int>)
      modifies this`generatingTargets
      ensures target == NextTarget(TargetWeights(config, generationWeightVersion), last, old(generatingTargets))
      ensures generatingTargets == match target case Some(t) => old(generatingTargets) + {t}
                                                case None => old(generatingTargets)
    {
      var targets := CalculateTargetWeights(generationWeightVersion);
      for i := 0 to |targets|
        invariant generatingTargets == old(generatingTargets)
        invariant NextTarget(targets, last, generatingTargets) == NextTarget(targets[i..], last, generatingTargets)
      {
        assert targets[i..][1..] == targets[i + 1..];
        if targets[i] > last && targets[i] !in generatingTargets {
          generatingTargets := generatingTargets + {targets[i]};
          return Some(targets[i]);
        }
      }
      return None;
    }

    /** Pausing is right exactly when a reservation at the current version would find nothing. */
    method ShouldPauseForGenerationLimits(last: int) returns (pause: bool)
      ensures pause <==> NextTarget(TargetWeights(config, currentWeightVersion), last, generatingTargets) == None
      ensures pause <==> forall t ::
        FirstTarget(config, currentWeightVersion) <= t <= currentWeightVersion + config.maxAge ==>
        t <= last || t in generatingTargets
    {
      NextTargetInRange(FirstTarget(config, currentWeightVersion), currentWeightVersion + config.maxAge + 1, last,
                        generatingTargets);
      var targets := CalculateTargetWeights(currentWeightVersion);
      for i := 0 to |targets|
        invariant NextTarget(targets, last, generatingTargets) == NextTarget(targets[i..], last, generatingTargets)
      {
        assert targets[i..][1..] == targets[i + 1..];
        if targets[i] > last && targets[i] !in generatingTargets { return false; }
      }
      return true;
    }

    method SetWeightVersion(version: int)
      modifies this`currentWeightVersion, this`generationLimitCleared
      ensures currentWeightVersion == version && generationLimitCleared
    {
      currentWeightVersion := version;
      if !generationLimitCleared { generationLimitCleared := true; }
    }
  }
}
