/** Rotation of the pinned server certificate, with its persistence and restarts. */
module PinRotation {
  import opened Options

  type Fingerprint = int

  type Pins = seq<Fingerprint>

  /** What a state file may contain: one or two distinct pins. */
  predicate WellFormed(pins: Pins) {
    1 <= |pins| <= 2 && (|pins| == 2 ==> pins[0] != pins[1])
  }

  predicate MatchesPin(actual: Fingerprint, pins: Pins) {
    exists i | 0 <= i < |pins| :: pins[i] == actual
  }

  function PromotePendingPin(pins: Pins, connected: Fingerprint): (promoted: Option<Pins>)
    ensures promoted.Some? <==> |pins| == 2 && pins[1] == connected
    ensures promoted.Some? ==> WellFormed(promoted.value) && MatchesPin(connected, promoted.value)
    ensures promoted.Some? && WellFormed(pins) ==> !MatchesPin(pins[0], promoted.value)
  {
    if |pins| != 2 then None
    else if pins[1] != connected then None
    else
      var promoted := [pins[1]];
      assert promoted[0] == connected;
      Some(promoted)
  }

  /** A promotion: the pins that were held, and the certificate the peer presented. */
  datatype Promotion = Promotion(before: Pins, presented: Fingerprint)

  /** `p` is the paired pin, or was promoted. */
  predicate Rooted(p: Fingerprint, paired: Fingerprint, promotions: seq<Promotion>) {
    p == paired || exists k | 0 <= k < |promotions| :: promotions[k].presented == p
  }

  /** Each promotion replaced a rooted pin by the pending one, which the peer presented. */
  predicate Chained(paired: Fingerprint, promotions: seq<Promotion>) {
    forall k | 0 <= k < |promotions| ::
      && WellFormed(promotions[k].before) && |promotions[k].before| == 2
      && promotions[k].before[1] == promotions[k].presented
      && Rooted(promotions[k].before[0], paired, promotions[..k])
  }

  lemma ChainGrows(paired: Fingerprint, promotions: seq<Promotion>, p: Promotion)
    requires Chained(paired, promotions)
    requires WellFormed(p.before) && |p.before| == 2 && p.before[1] == p.presented
    requires Rooted(p.before[0], paired, promotions)
    ensures Chained(paired, promotions + [p])
    ensures Rooted(p.presented, paired, promotions + [p])
    ensures forall q | Rooted(q, paired, promotions) :: Rooted(q, paired, promotions + [p])
  {
    var more := promotions + [p];
    forall k | 0 <= k < |more|
      ensures more[..k] == if k < |promotions| then promotions[..k] else promotions
    {
    }
    assert more[|promotions|].presented == p.presented;
    forall q | Rooted(q, paired, promotions)
      ensures Rooted(q, paired, more)
    {
      if q != paired {
        var k :| 0 <= k < |promotions| && promotions[k].presented == q;
        assert more[k].presented == q;
      }
    }
  }

  /** A trusted pin can be traced back, one promotion at a time, to the paired one. */
  lemma {:induction false} TrustPath(paired: Fingerprint, promotions: seq<Promotion>, p: Fingerprint)
    returns (path: seq<Fingerprint>)
    requires Chained(paired, promotions) && Rooted(p, paired, promotions)
    ensures path != [] && path[0] == paired && path[|path| - 1] == p
    ensures forall i | 0 <= i < |path| - 1 :: exists k | 0 <= k < |promotions| ::
              promotions[k].before == [path[i], path[i + 1]] && promotions[k].presented == path[i + 1]
    decreases |promotions|
  {
    if p == paired {
      return [p];
    }
    var k :| 0 <= k < |promotions| && promotions[k].presented == p;
    var earlier := promotions[..k];
    assert Chained(paired, earlier) by {
      forall j | 0 <= j < k
        ensures earlier[..j] == promotions[..j]
      {
      }
    }
    var prefix := TrustPath(paired, earlier, promotions[k].before[0]);
    path := prefix + [p];
    assert promotions[k].before == [prefix[|prefix| - 1], p];
    forall i | 0 <= i < |path| - 1
      ensures exists k | 0 <= k < |promotions| ::
                promotions[k].before == [path[i], path[i + 1]] && promotions[k].presented == path[i + 1]
    {
      if i < |prefix| - 1 {
        var j :| 0 <= j < |earlier|
          && earlier[j].before == [prefix[i], prefix[i + 1]] && earlier[j].presented == prefix[i + 1];
        assert promotions[j] == earlier[j];
      }
    }
  }

  class PinnedClient {
    /** The pins connections are checked against. */
    var pins: Pins
    /** The pins in the state file, as the next read and as a power failure would find them. */
    var visible: Pins
    var durable: Pins
    ghost const paired: Fingerprint
    ghost var promotions: seq<Promotion>

    ghost predicate Valid()
      reads this
    {
      && Chained(paired, promotions)
      && Trusted(pins) && Trusted(visible) && Trusted(durable)
    }

    ghost predicate Trusted(p: Pins)
      reads this
    {
      WellFormed(p) && Rooted(p[0], paired, promotions)
    }

    /** The pairing commit saved exactly one pin. */
    constructor (paired: Fingerprint)
      ensures Valid() && pins == [paired] && this.paired == paired && promotions == []
    {
      this.paired := paired;
      pins, visible, durable, promotions := [paired], [paired], [paired], [];
    }

    /** `persistPins`: a failed save may have replaced the file, durably or not. */
    method PersistPins(p: Pins) returns (ok: bool)
      requires Valid() && Trusted(p)
      modifies this`visible, this`durable
      ensures Valid()
      ensures visible == old(visible) || visible == p
      ensures durable == old(durable) || durable == old(visible) || durable == p
      ensures ok ==> visible == p && durable == p
    {
      var written, renamed, flushed: bool := *, *, *;
      if flushed {
        durable := visible;
      }
      if !written || !renamed {
        return false;
      }
      visible := p;
      ok := *;
      flushed := *;
      if ok || flushed {
        durable := p;
      }
    }

    /** `promotePin`, after a request whose peer presented `connected`. */
    method PromotePin(connected: Fingerprint) returns (ok: bool)
      requires Valid()
      modifies this`pins, this`visible, this`durable, this`promotions
      ensures Valid()
      ensures pins == old(pins) || (ok && |old(pins)| == 2 && connected == old(pins)[1] && pins == [connected])
      ensures ok && |old(pins)| == 2 && connected == old(pins)[1] ==> pins == [connected] && durable == pins
      ensures !(|old(pins)| == 2 && connected == old(pins)[1]) ==>
                ok && promotions == old(promotions) && visible == old(visible)
      ensures old(promotions) <= promotions
    {
      if |pins| != 2 || connected != pins[1] {
        return true;
      }
      var promoted := PromotePendingPin(pins, connected);
      ChainGrows(paired, promotions, Promotion(pins, connected));
      promotions := promotions + [Promotion(pins, connected)];
      ok := PersistPins(promoted.value);
      if ok {
        pins := promoted.value;
      }
    }

    /** `stagePins`: the server announces its pins. The trusted pin never changes. */
    method StagePins(raw: Pins) returns (ok: bool)
      requires Valid()
      modifies this`pins, this`visible, this`durable
      ensures Valid()
      ensures pins[0] == old(pins)[0]
      ensures pins != old(pins) ==> ok && |pins| == 2 && durable == pins && pins[1] in raw
      ensures visible == old(visible) || visible[0] == pins[0]
      ensures !WellFormed(raw) ==> !ok && pins == old(pins)
      // A second rotation is refused unless the server confirms the trusted or the pending pin.
      ensures WellFormed(raw) && |old(pins)| == 2 && raw[0] !in old(pins) ==> !ok && visible == old(visible)
      ensures ok && raw[0] !in old(pins) ==> pins == [old(pins)[0], raw[0]]
    {
      if !WellFormed(raw) {
        return false;
      }
      if |raw| == 1 && raw[0] == pins[0] {
        return true;
      }
      if |raw| == 2 && raw[0] == pins[0] {
        ok := PersistPins(raw);
        if ok {
          pins := raw;
        }
        return;
      }
      if |pins| == 2 && raw[0] == pins[1] {
        return true;
      }
      if |pins| != 1 {
        return false;
      }
      var staged := [pins[0], raw[0]];
      ok := PersistPins(staged);
      if ok {
        pins := staged;
      }
    }

    /** A new session loads what the file holds now, after a power failure its durable contents. */
    method Restart()
      requires Valid()
      modifies this`pins, this`visible, this`durable
      ensures Valid() && pins == visible
      ensures pins == old(visible) || pins == old(durable)
    {
      var power, flushed: bool := *, *;
      if power {
        visible := durable;
      } else if flushed {
        durable := visible;
      }
      pins := visible;
    }

    /** Any sequence of announcements, promotions, failed saves and restarts. */
    method Run(turns: nat) returns (trusted: seq<Fingerprint>)
      requires Valid()
      modifies this
      ensures Valid() && Chained(paired, promotions)
      ensures forall p | p in trusted :: Rooted(p, paired, promotions)
    {
      trusted := [pins[0]];
      for turn := 0 to turns
        invariant Valid()
        invariant forall p | p in trusted :: Rooted(p, paired, promotions)
      {
        ghost var before := promotions;
        var choice, peer: int := *, *;
        var raw: Pins := *;
        var ok;
        if choice == 0 {
          ok := StagePins(raw);
        } else if choice == 1 {
          ok := PromotePin(peer);
          StaysRooted(before);
        } else {
          Restart();
        }
        trusted := trusted + [pins[0]];
      }
    }

    lemma StaysRooted(before: seq<Promotion>)
      requires before <= promotions
      ensures forall p | Rooted(p, paired, before) :: Rooted(p, paired, promotions)
    {
      forall p | Rooted(p, paired, before)
        ensures Rooted(p, paired, promotions)
      {
        if p != paired {
          var k :| 0 <= k < |before| && before[k].presented == p;
          assert promotions[k].presented == p;
        }
      }
    }
  }
}
