/**
 * How a pool transaction was received and relayed: five flags that encode a method, and the
 * upgrade that never lowers it.
 */
module RelayState {
  import opened Basics

  datatype RelayMethod = NoRelay | Local | Forward | Stem | Fluff | Block

  datatype RelayCategory = Broadcasted | Relayable | Legacy | All

  /** The order the source asserts statically. */
  function Rank(m: RelayMethod): (r: nat)
    ensures r <= 5
  {
    match m
    case NoRelay => 0
    case Local => 1
    case Forward => 2
    case Stem => 3
    case Fluff => 4
    case Block => 5
  }

  predicate MatchesCategory(m: RelayMethod, c: RelayCategory) {
    match c
    case All => true
    case Relayable => m != NoRelay
    case Broadcasted => m == Block || m == Fluff
    case Legacy => m == Block || m == Fluff || m == NoRelay
  }

  type Bit = b: int | 0 <= b < 2

  /** Two whole bytes and three bit fields. */
  datatype Flags = Flags(keptByBlock: Byte, doNotRelay: Byte, isLocal: Bit, isForwarding: Bit, dandelionppStem: Bit)

  function Encode(m: RelayMethod): Flags {
    Flags(if m == Block then 1 else 0, if m == NoRelay then 1 else 0, if m == Local then 1 else 0,
          if m == Forward then 1 else 0, if m == Stem then 1 else 0)
  }

  /** The sum wraps around in eight bits; every state but the five named ones means fluff. */
  function Decode(f: Flags): RelayMethod {
    var state := (f.keptByBlock + f.doNotRelay * 2 + f.isLocal * 4 + f.isForwarding * 8 + f.dandelionppStem * 16) % 256;
    if state == 1 then Block
    else if state == 2 then NoRelay
    else if state == 4 then Local
    else if state == 8 then Forward
    else if state == 16 then Stem
    else Fluff
  }

  function Upgraded(f: Flags, m: RelayMethod): Flags {
    if Rank(Decode(f)) < Rank(m) then Encode(m) else f
  }

  predicate AtMostOneFlag(f: Flags) {
    f.keptByBlock + f.doNotRelay + f.isLocal + f.isForwarding + f.dandelionppStem <= 1
  }

  class TxPoolMeta {
    var keptByBlock: Byte
    var doNotRelay: Byte
    var isLocal: Bit
    var isForwarding: Bit
    var dandelionppStem: Bit

    function State(): Flags
      reads this
    {
      Flags(keptByBlock, doNotRelay, isLocal, isForwarding, dandelionppStem)
    }

    method SetRelayMethod(m: RelayMethod)
      modifies this
      ensures State() == Encode(m) && Decode(State()) == m && AtMostOneFlag(State())
    {
      keptByBlock := 0;
      doNotRelay := 0;
      isLocal := 0;
      isForwarding := 0;
      dandelionppStem := 0;
      match m {
        case NoRelay => doNotRelay := 1;
        case Local => isLocal := 1;
        case Forward => isForwarding := 1;
        case Stem => dandelionppStem := 1;
        case Block => keptByBlock := 1;
        case Fluff =>
      }
    }

    method GetRelayMethod() returns (m: RelayMethod)
      ensures m == Decode(State())
    {
      var state := (keptByBlock + doNotRelay * 2 + isLocal * 4 + isForwarding * 8 + dandelionppStem * 16) % 256;
      match state {
        case 1 => m := Block;
        case 2 => m := NoRelay;
        case 4 => m := Local;
        case 8 => m := Forward;
        case 16 => m := Stem;
        case _ => m := Fluff;
      }
    }

    method UpgradeRelayMethod(m: RelayMethod) returns (raised: bool)
      modifies this
      ensures State() == Upgraded(old(State()), m)
      ensures raised <==> Rank(Decode(old(State()))) < Rank(m)
    {
      var current := GetRelayMethod();
      if Rank(current) < Rank(m) {
        SetRelayMethod(m);
        return true;
      }
      return false;
    }
  }

  // ----- Runs of upgrades -----

  /** The flags after all requests, in order. */
  function Run(f: Flags, requests: seq<RelayMethod>): Flags {
    if requests == [] then f
    else Upgraded(Run(f, requests[..|requests| - 1]), requests[|requests| - 1])
  }

  /** How many of the requests returned true. */
  function Raises(f: Flags, requests: seq<RelayMethod>): nat {
    if requests == [] then 0
    else
      var k := |requests| - 1;
      Raises(f, requests[..k]) + (if Rank(Decode(Run(f, requests[..k]))) < Rank(requests[k]) then 1 else 0)
  }

  lemma DecodeEncode(m: RelayMethod)
    ensures Decode(Encode(m)) == m && AtMostOneFlag(Encode(m))
  {
  }

  /** From not relayed through local, forwarded, stem and fluff to mined. */
  lemma Order()
    ensures Rank(NoRelay) < Rank(Local) < Rank(Forward) < Rank(Stem) < Rank(Fluff) < Rank(Block)
  {
  }

  lemma RankIsInjective(a: RelayMethod, b: RelayMethod)
    requires Rank(a) == Rank(b)
    ensures a == b
  {
  }

  /** Broadcast is what is at least fluffed, relayable what is above not relayed, legacy what is one or neither. */
  lemma CategoriesAre(m: RelayMethod)
    ensures MatchesCategory(m, Broadcasted) <==> Rank(Fluff) <= Rank(m)
    ensures MatchesCategory(m, Relayable) <==> Rank(NoRelay) < Rank(m)
    ensures MatchesCategory(m, Legacy) <==> (MatchesCategory(m, Broadcasted) || !MatchesCategory(m, Relayable))
    ensures MatchesCategory(m, All)
  {
  }

  /** Each method but fluff has a flag of its own, and flags that name no single method mean fluff. */
  lemma FlagsMean(f: Flags)
    requires f.keptByBlock < 2 && f.doNotRelay < 2
    ensures var count := f.keptByBlock + f.doNotRelay + f.isLocal + f.isForwarding + f.dandelionppStem;
            Decode(f) == if count != 1 then Fluff
                         else if f.keptByBlock == 1 then Block
                         else if f.doNotRelay == 1 then NoRelay
                         else if f.isLocal == 1 then Local
                         else if f.isForwarding == 1 then Forward
                         else Stem
  {
  }

  /** The final method is the maximum of the initial one and all requests, from any flag bytes. */
  lemma {:induction false} RunIsMaximum(f: Flags, requests: seq<RelayMethod>)
    ensures var last := Decode(Run(f, requests));
            && (last == Decode(f) || last in requests)
            && Rank(Decode(f)) <= Rank(last)
            && forall i :: 0 <= i < |requests| ==> Rank(requests[i]) <= Rank(last)
  {
    hide Decode, Encode;
    if requests != [] {
      var k := |requests| - 1;
      RunIsMaximum(f, requests[..k]);
      DecodeEncode(requests[k]);
    }
  }

  /** Each raise climbs at least one rank, so there are at most five. */
  lemma {:induction false} RaisesAreFew(f: Flags, requests: seq<RelayMethod>)
    ensures Raises(f, requests) + Rank(Decode(f)) <= Rank(Decode(Run(f, requests))) <= 5
  {
    hide Decode, Encode, Rank;
    if requests != [] {
      var k := |requests| - 1;
      RaisesAreFew(f, requests[..k]);
      DecodeEncode(requests[k]);
    }
  }

  /** After any raise the flags are in the canonical form with at most one of them set; without one nothing changed. */
  lemma {:induction false} RaisedFlagsAreCanonical(f: Flags, requests: seq<RelayMethod>)
    ensures Raises(f, requests) > 0 ==>
              Run(f, requests) == Encode(Decode(Run(f, requests))) && AtMostOneFlag(Run(f, requests))
    ensures Raises(f, requests) == 0 ==> Run(f, requests) == f
  {
    hide Decode, Encode, AtMostOneFlag, Rank;
    if requests != [] {
      var k := |requests| - 1;
      RaisedFlagsAreCanonical(f, requests[..k]);
      DecodeEncode(requests[k]);
    }
  }

  /** Relayable and broadcasted transactions stay so under every further run of requests. */
  lemma CategoriesAreKept(f: Flags, requests: seq<RelayMethod>)
    ensures MatchesCategory(Decode(f), Relayable) ==> MatchesCategory(Decode(Run(f, requests)), Relayable)
    ensures MatchesCategory(Decode(f), Broadcasted) ==> MatchesCategory(Decode(Run(f, requests)), Broadcasted)
  {
    hide Decode, Encode;
    RunIsMaximum(f, requests);
  }

  /** The legacy category is lost exactly when an unrelayed transaction is raised below fluff. */
  lemma LegacyIsLostIff(f: Flags, requests: seq<RelayMethod>)
    ensures MatchesCategory(Decode(f), Legacy) && !MatchesCategory(Decode(Run(f, requests)), Legacy) <==>
            && Decode(f) == NoRelay
            && (exists i :: 0 <= i < |requests| && requests[i] != NoRelay)
            && (forall i :: 0 <= i < |requests| ==> Rank(requests[i]) < Rank(Fluff))
  {
    hide Decode, Encode;
    RunIsMaximum(f, requests);
    var last := Decode(Run(f, requests));
    if last in requests {
      var i :| 0 <= i < |requests| && requests[i] == last;
    }
    if Decode(f) == NoRelay && last == NoRelay {
      forall i | 0 <= i < |requests|
        ensures requests[i] == NoRelay
      {
        RankIsInjective(requests[i], NoRelay);
      }
    }
  }

  /** One request is enough: an unrelayed transaction that is then sent by this node leaves the legacy category. */
  lemma LegacyCanBeLost()
    ensures MatchesCategory(Decode(Encode(NoRelay)), Legacy)
    ensures !MatchesCategory(Decode(Run(Encode(NoRelay), [Local])), Legacy)
  {
    var f := Encode(NoRelay);
    assert [Local][..0] == [];
    assert Run(f, []) == f;
    assert Run(f, [Local]) == Upgraded(f, Local);
  }
}
