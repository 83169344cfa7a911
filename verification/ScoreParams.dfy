/** Parameters of the peer score and the checks they must pass. */
module ScoreParams {
  import opened Types

  datatype TopicParams = TopicParams(
    topicWeight: real,
    timeInMeshWeight: real, timeInMeshQuantum: real, timeInMeshCap: real,
    firstMessageDeliveriesWeight: real, firstMessageDeliveriesDecay: real, firstMessageDeliveriesCap: real,
    meshMessageDeliveriesWeight: real, meshMessageDeliveriesDecay: real, meshMessageDeliveriesCap: real,
    meshMessageDeliveriesThreshold: real, meshMessageDeliveriesWindow: int, meshMessageDeliveriesActivation: int,
    meshFailurePenaltyWeight: real, meshFailurePenaltyDecay: real,
    invalidMessageDeliveriesWeight: real, invalidMessageDeliveriesDecay: real)

  datatype Params = Params(
    topics: map<Topic, TopicParams>, topicScoreCap: real,
    appSpecificScore: PeerId -> real, appSpecificWeight: real,
    ipColocationFactorWeight: real, ipColocationFactorThreshold: real, ipColocationFactorWhitelist: set<IP>,
    behaviourPenaltyWeight: real, behaviourPenaltyThreshold: real, behaviourPenaltyDecay: real,
    decayInterval: int, decayToZero: real, retainScore: int)

  datatype Verdict = Accepted | Rejected(reason: string)

  predicate BadDecay(d: real) { d <= 0.0 || d >= 1.0 }

  function ValidateTopicScoreParams(p: TopicParams): (v: Verdict) {
    if p.topicWeight < 0.0 then Rejected("topic weight")
    else if p.timeInMeshQuantum == 0.0 then Rejected("TimeInMeshQuantum")
    else if p.timeInMeshWeight < 0.0 then Rejected("TimeInMeshWeight")
    else if p.timeInMeshWeight != 0.0 && p.timeInMeshQuantum <= 0.0 then Rejected("TimeInMeshQuantum")
    else if p.timeInMeshWeight != 0.0 && p.timeInMeshCap <= 0.0 then Rejected("TimeInMeshCap")
    else if p.firstMessageDeliveriesWeight < 0.0 then Rejected("FirstMessageDeliveriesWeight")
    else if p.firstMessageDeliveriesWeight != 0.0 && BadDecay(p.firstMessageDeliveriesDecay)
      then Rejected("FirstMessageDeliveriesDecay")
    else if p.firstMessageDeliveriesWeight != 0.0 && p.firstMessageDeliveriesCap <= 0.0
      then Rejected("FirstMessageDeliveriesCap")
    else if p.meshMessageDeliveriesWeight > 0.0 then Rejected("MeshMessageDeliveriesWeight")
    else if p.meshMessageDeliveriesWeight != 0.0 && BadDecay(p.meshMessageDeliveriesDecay)
      then Rejected("MeshMessageDeliveriesDecay")
    else if p.meshMessageDeliveriesWeight != 0.0 && p.meshMessageDeliveriesCap <= 0.0
      then Rejected("MeshMessageDeliveriesCap")
    else if p.meshMessageDeliveriesWeight != 0.0 && p.meshMessageDeliveriesThreshold <= 0.0
      then Rejected("MeshMessageDeliveriesThreshold")
    else if p.meshMessageDeliveriesWindow < 0 then Rejected("MeshMessageDeliveriesWindow")
    else if p.meshMessageDeliveriesWeight != 0.0 && p.meshMessageDeliveriesActivation < 1000
      then Rejected("MeshMessageDeliveriesActivation")
    else if p.meshFailurePenaltyWeight > 0.0 then Rejected("MeshFailurePenaltyWeight")
    else if p.meshFailurePenaltyWeight != 0.0 && BadDecay(p.meshFailurePenaltyDecay)
      then Rejected("MeshFailurePenaltyDecay")
    else if p.invalidMessageDeliveriesWeight > 0.0 then Rejected("InvalidMessageDeliveriesWeight")
    else if BadDecay(p.invalidMessageDeliveriesDecay) then Rejected("InvalidMessageDeliveriesDecay")
    else Accepted
  }

  /** Which parameters of a topic pass: what a weight brings into play must make sense, and some things always. */
  lemma AcceptedIff(p: TopicParams)
    ensures ValidateTopicScoreParams(p).Accepted? <==>
      && p.topicWeight >= 0.0 && p.timeInMeshQuantum != 0.0 && p.meshMessageDeliveriesWindow >= 0
      && p.timeInMeshWeight >= 0.0 && p.firstMessageDeliveriesWeight >= 0.0
      && p.meshMessageDeliveriesWeight <= 0.0 && p.meshFailurePenaltyWeight <= 0.0
      && p.invalidMessageDeliveriesWeight <= 0.0 && 0.0 < p.invalidMessageDeliveriesDecay < 1.0
      && (p.timeInMeshWeight != 0.0 ==> p.timeInMeshQuantum > 0.0 && p.timeInMeshCap > 0.0)
      && (p.firstMessageDeliveriesWeight != 0.0 ==>
            0.0 < p.firstMessageDeliveriesDecay < 1.0 && p.firstMessageDeliveriesCap > 0.0)
      && (p.meshMessageDeliveriesWeight != 0.0 ==>
            && 0.0 < p.meshMessageDeliveriesDecay < 1.0 && p.meshMessageDeliveriesCap > 0.0
            && p.meshMessageDeliveriesThreshold > 0.0 && p.meshMessageDeliveriesActivation >= 1000)
      && (p.meshFailurePenaltyWeight != 0.0 ==> 0.0 < p.meshFailurePenaltyDecay < 1.0)
  {
  }

  ghost predicate AcceptedParams(p: Params) {
    && (forall t :: t in p.topics ==> ValidateTopicScoreParams(p.topics[t]).Accepted?)
    && p.topicScoreCap >= 0.0
    && p.ipColocationFactorWeight <= 0.0
    && (p.ipColocationFactorWeight == 0.0 || p.ipColocationFactorThreshold >= 1.0)
    && p.behaviourPenaltyWeight <= 0.0
    && (p.behaviourPenaltyWeight == 0.0 || !BadDecay(p.behaviourPenaltyDecay))
    && p.decayInterval >= 1000
    && !BadDecay(p.decayToZero)
  }
}
