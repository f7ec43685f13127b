/**
 The provisioning-IP agent: a loop that remembers the last address it wrote and
 skips the write while the address stays the same. It is compared with a loop
 that writes every time.
 */
module AddressAgent {

  /** The two status fields the agent maintains. */
  datatype Stored = Stored(provisionIp: string, provisionIpError: string)

  const BLANK := Stored("", "")

  /** How the API calls of an attempted write go; a write may take effect although an error is reported. */
  datatype WriteOutcome = Applied | Refused | AppliedWithError

  /**
   What the agent finds under the server's name: the object of the round before,
   another one (the old one was deleted and recreated in between), or none.
   */
  datatype Server = Same | New | Missing

  /** One round: what the interface shows, what became of the server object, and how a write would go. */
  datatype Round = Round(ip: string, intfFound: bool, server: Server, write: WriteOutcome)

  function ErrorText(intf: string, intfFound: bool): string {
    (if intfFound then "Unable to find provisioning IP on interface "
     else "Unable to find provisioning interface ") + intf
  }

  function Desired(intf: string, r: Round): Stored {
    if r.ip == "" then Stored("", ErrorText(intf, r.intfFound)) else Stored(r.ip, "")
  }

  /** A deleted object takes its status with it; its successor starts blank. */
  function Surviving(stored: Stored, r: Round): Stored {
    if r.server == Same then stored else BLANK
  }

  predicate TakesEffect(r: Round) {
    r.server != Missing && r.write != Refused
  }

  /** The stored fields after an attempted write; a missing object is no error. */
  function AfterWrite(intf: string, stored: Stored, r: Round): Stored {
    if TakesEffect(r) then Desired(intf, r) else Surviving(stored, r)
  }

  function Succeeds(r: Round): bool {
    r.server == Missing || r.write == Applied
  }

  datatype Agent = Agent(cached: string, stored: Stored)

  function ElidedRound(intf: string, a: Agent, r: Round): Agent {
    if r.ip == "" || r.ip != a.cached then
      Agent(if Succeeds(r) then r.ip else "", AfterWrite(intf, a.stored, r))
    else Agent(a.cached, Surviving(a.stored, r))
  }

  /** The agent after a stream of rounds. */
  function Elided(intf: string, a: Agent, rounds: seq<Round>): Agent {
    if rounds == [] then a
    else ElidedRound(intf, Elided(intf, a, rounds[..|rounds| - 1]), rounds[|rounds| - 1])
  }

  /** The reference: every round writes. */
  function Eager(intf: string, stored: Stored, rounds: seq<Round>): Stored {
    if rounds == [] then stored
    else AfterWrite(intf, Eager(intf, stored, rounds[..|rounds| - 1]), rounds[|rounds| - 1])
  }

  /** The running agent and the object it writes to. */
  class AgentLoop {
    const intf: string
    var ip: string
    var stored: Stored

    constructor (intf: string, stored: Stored)
      ensures this.intf == intf && State() == Agent("", stored)
    {
      this.intf := intf;
      ip := "";
      this.stored := stored;
    }

    function State(): Agent
      reads this
    {
      Agent(ip, stored)
    }

    method UpdateProvisioningStatus(r: Round) returns (ok: bool)
      modifies this`stored
      ensures ok == Succeeds(r) && stored == AfterWrite(intf, old(stored), r)
    {
      if r.server != Same {
        stored := BLANK;
      }
      if r.server == Missing {
        return true;
      }
      if r.write != Refused {
        if r.ip == "" {
          stored := Stored("", ErrorText(intf, r.intfFound));
        } else {
          stored := Stored(r.ip, "");
        }
      }
      return r.write == Applied;
    }

    method Run(rounds: seq<Round>)
      modifies this
      ensures State() == Elided(intf, old(State()), rounds)
    {
      ghost var start := State();
      for i := 0 to |rounds|
        invariant State() == Elided(intf, start, rounds[..i])
      {
        assert rounds[..i + 1][..i] == rounds[..i];
        var r := rounds[i];
        if r.ip == "" || r.ip != ip {
          var ok := UpdateProvisioningStatus(r);
          ip := if ok then r.ip else "";
        } else {
          stored := Surviving(stored, r);
        }
      }
      assert rounds[..|rounds|] == rounds;
    }
  }

  // ---------------------------------------------------------------- what a write leaves

  /** The two error texts are never empty and never the same. */
  lemma ErrorTexts(intf: string)
    ensures ErrorText(intf, true) != "" && ErrorText(intf, false) != ""
    ensures ErrorText(intf, true) != ErrorText(intf, false)
  {
    assert "Unable to find provisioning IP on interface "[28] == 'I';
    assert "Unable to find provisioning interface "[28] == 'i';
    assert ErrorText(intf, true)[28] == 'I' && ErrorText(intf, false)[28] == 'i';
  }

  /**
   A write that takes effect stores the address and clears the error, or stores no
   address and an error that tells a missing interface from a missing address.
   */
  lemma WriteShowsFinding(intf: string, stored: Stored, ip: string, server: Server, write: WriteOutcome)
    requires server != Missing && write != Refused
    ensures
      var found := AfterWrite(intf, stored, Round(ip, true, server, write));
      var noInterface := AfterWrite(intf, stored, Round(ip, false, server, write));
      && found.provisionIp == ip && noInterface.provisionIp == ip
      && (ip != "" ==> found.provisionIpError == "" && noInterface.provisionIpError == "")
      && (ip == "" ==>
            && found.provisionIpError != "" && noInterface.provisionIpError != ""
            && found.provisionIpError != noInterface.provisionIpError)
  {
    ErrorTexts(intf);
  }

  /** A write that was refused, or reported an error, is followed by another write in the next round. */
  lemma FailedWriteIsRepeated(intf: string, a: Agent, r: Round, r': Round)
    requires (r.ip == "" || r.ip != a.cached) && r.server != Missing && r.write != Applied
    requires r'.server != Missing && r'.write != Refused && r'.ip != ""
    ensures Elided(intf, a, [r, r']).stored == Stored(r'.ip, "")
  {
    assert [r, r'][..1] == [r] && [r][..0] == [];
    assert Elided(intf, a, [r]) == ElidedRound(intf, a, r);
    assert Elided(intf, a, [r, r']) == ElidedRound(intf, Elided(intf, a, [r]), r');
  }

  /** A missing object counts as written: the same address is not written when the object comes back. */
  lemma MissingCountsAsWritten(intf: string, r: Round, r': Round)
    requires r.ip != "" && r.server == Missing && r'.ip == r.ip && r'.server == New
    ensures Elided(intf, Agent("", BLANK), [r, r']) == Agent(r.ip, Stored("", ""))
  {
    assert [r, r'][..1] == [r] && [r][..0] == [];
  }

  // ---------------------------------------------------------------- when skipping is invisible

  /** The object the agent wrote to in round `l` or before is gone in round `m`. */
  predicate Lost(rounds: seq<Round>, l: nat, m: nat)
    requires m < |rounds|
  {
    rounds[m].server == Missing || (rounds[m].server == New && l < m)
  }

  /** The address has been `ip` from round `l` to round `i`, and in round `l` the agent believed to have written it. */
  ghost predicate Remembered(rounds: seq<Round>, ip: string, l: nat, i: nat) {
    l <= i < |rounds| && ip != "" && Succeeds(rounds[l]) && forall j | l <= j <= i :: rounds[j].ip == ip
  }

  /**
   The agent has remembered the address since round `l`, the object was lost in round
   `m`, and in round `i` a write would take effect: the agent skips it.
   */
  ghost predicate Trap(rounds: seq<Round>, l: nat, m: nat, i: nat) {
    && l <= m <= i && l < i < |rounds|
    && Remembered(rounds, rounds[i].ip, l, i) && Lost(rounds, l, m) && TakesEffect(rounds[i])
  }

  ghost predicate NoTrap(rounds: seq<Round>) {
    forall l: nat, m: nat, i: nat :: !Trap(rounds, l, m, i)
  }

  /** The remembered address is stored, or the object it was stored in is lost. */
  ghost predicate CacheExplained(a: Agent, rounds: seq<Round>) {
    a.cached != "" ==>
      exists l: nat :: Explains(a, rounds, l)
  }

  ghost predicate Explains(a: Agent, rounds: seq<Round>, l: nat) {
    && l < |rounds| && Remembered(rounds, a.cached, l, |rounds| - 1)
    && (a.stored == Stored(a.cached, "") || exists m: nat :: l <= m < |rounds| && Lost(rounds, l, m))
  }

  lemma TrapInPrefix(rounds: seq<Round>, k: nat, l: nat, m: nat, i: nat)
    requires k <= |rounds| && Trap(rounds[..k], l, m, i)
    ensures Trap(rounds, l, m, i)
  {
    assert forall j | l <= j <= i :: rounds[..k][j] == rounds[j];
  }

  lemma NoTrapInPrefix(rounds: seq<Round>, k: nat)
    requires k <= |rounds| && NoTrap(rounds)
    ensures NoTrap(rounds[..k])
  {
    forall l: nat, m: nat, i: nat ensures !Trap(rounds[..k], l, m, i) {
      if Trap(rounds[..k], l, m, i) {
        TrapInPrefix(rounds, k, l, m, i);
        assert false;
      }
    }
  }

  lemma {:induction false} SkippingIsInvisible(intf: string, stored: Stored, rounds: seq<Round>)
    requires NoTrap(rounds)
    ensures Elided(intf, Agent("", stored), rounds).stored == Eager(intf, stored, rounds)
    ensures CacheExplained(Elided(intf, Agent("", stored), rounds), rounds)
    decreases |rounds|
  {
    if rounds != [] {
      var init, r := rounds[..|rounds| - 1], rounds[|rounds| - 1];
      NoTrapInPrefix(rounds, |rounds| - 1);
      SkippingIsInvisible(intf, stored, init);
      var a := Elided(intf, Agent("", stored), init);
      if r.ip == "" || r.ip != a.cached {
        WriteIsExplained(intf, a, rounds);
      } else {
        SkipKeepsAgreement(intf, a, init, r, rounds);
      }
    }
  }

  /** A write explains what is remembered after it. */
  lemma WriteIsExplained(intf: string, a: Agent, rounds: seq<Round>)
    requires rounds != []
    requires
      var r := rounds[|rounds| - 1];
      r.ip == "" || r.ip != a.cached
    ensures CacheExplained(ElidedRound(intf, a, rounds[|rounds| - 1]), rounds)
  {
    var n: nat := |rounds| - 1;
    var b := ElidedRound(intf, a, rounds[n]);
    if b.cached != "" {
      assert rounds[n].server == Missing ==> Lost(rounds, n, n);
      assert Explains(b, rounds, n);
    }
  }

  /** Without a trap a skipped write would have changed nothing. */
  lemma SkipKeepsAgreement(intf: string, a: Agent, init: seq<Round>, r: Round, rounds: seq<Round>)
    requires rounds == init + [r] && NoTrap(rounds) && CacheExplained(a, init)
    requires r.ip != "" && r.ip == a.cached
    ensures Surviving(a.stored, r) == AfterWrite(intf, a.stored, r)
    ensures CacheExplained(Agent(a.cached, Surviving(a.stored, r)), rounds)
  {
    var n: nat, l: nat :| n == |init| && Explains(a, init, l);
    assert forall j | l <= j < n :: rounds[j] == init[j];
    assert Remembered(rounds, a.cached, l, n);
    if r.server != Same {
      assert Lost(rounds, l, n) && !Trap(rounds, l, n, n);
    } else if a.stored != Stored(a.cached, "") {
      var m: nat :| l <= m < n && Lost(init, l, m);
      assert Lost(rounds, l, m) && !Trap(rounds, l, m, n);
    }
    assert Explains(Agent(a.cached, Surviving(a.stored, r)), rounds, l);
  }

  /** As long as the address stays the same, the agent remembers it. */
  lemma {:induction false} CacheHolds(intf: string, a: Agent, rounds: seq<Round>, ip: string, l: nat, i: nat)
    requires Remembered(rounds, ip, l, i)
    ensures Elided(intf, a, rounds[..i + 1]).cached == ip
    decreases i
  {
    assert rounds[..i + 1][..i] == rounds[..i];
    if l < i {
      CacheHolds(intf, a, rounds, ip, l, i - 1);
    }
  }

  /** Nothing is written to a new object while the old address is remembered. */
  lemma {:induction false} BlankThroughout(
    intf: string, a: Agent, rounds: seq<Round>, ip: string, l: nat, m: nat, i: nat)
    requires Remembered(rounds, ip, l, i) && m <= i && l <= m && Lost(rounds, l, m)
    ensures Elided(intf, a, rounds[..i + 1]).stored == BLANK
    decreases i
  {
    assert rounds[..i + 1][..i] == rounds[..i];
    if l < i {
      CacheHolds(intf, a, rounds, ip, l, i - 1);
    }
    if m < i {
      BlankThroughout(intf, a, rounds, ip, l, m, i - 1);
    }
  }

  /** A trap makes the two loops differ in the round that closes it. */
  lemma TrapIsVisible(intf: string, a: Agent, stored: Stored, rounds: seq<Round>, l: nat, m: nat, i: nat)
    requires Trap(rounds, l, m, i)
    ensures Elided(intf, a, rounds[..i + 1]).stored != Eager(intf, stored, rounds[..i + 1])
  {
    BlankThroughout(intf, a, rounds, rounds[i].ip, l, m, i);
    assert rounds[..i + 1][..i] == rounds[..i];
  }

  /** The elided loop and the eager loop store the same after every round exactly when the stream has no trap. */
  lemma SkippingIsInvisibleExactly(intf: string, stored: Stored, rounds: seq<Round>)
    ensures NoTrap(rounds) <==>
            forall k | 0 <= k <= |rounds| ::
              Elided(intf, Agent("", stored), rounds[..k]).stored == Eager(intf, stored, rounds[..k])
  {
    if NoTrap(rounds) {
      forall k | 0 <= k <= |rounds|
        ensures Elided(intf, Agent("", stored), rounds[..k]).stored == Eager(intf, stored, rounds[..k])
      {
        NoTrapInPrefix(rounds, k);
        SkippingIsInvisible(intf, stored, rounds[..k]);
      }
    } else {
      var l: nat, m: nat, i: nat :| Trap(rounds, l, m, i);
      TrapIsVisible(intf, Agent("", stored), stored, rounds, l, m, i);
    }
  }

  /** Written, then deleted and recreated, with one address throughout: the new object never gets the address. */
  lemma RecreatedServerStaysBlank(intf: string, r: Round, rounds: seq<Round>)
    requires r == Round("172.22.0.3", true, Same, Applied)
    requires rounds == [r, r.(server := New)] || rounds == [r, r.(server := Missing), r.(server := New)]
    ensures Elided(intf, Agent("", BLANK), rounds).stored == BLANK
    ensures Eager(intf, BLANK, rounds) == Stored("172.22.0.3", "")
  {
    var i := |rounds| - 1;
    assert rounds[..i + 1] == rounds;
    BlankThroughout(intf, Agent("", BLANK), rounds, r.ip, 0, 1, i);
    assert rounds[i].ip == r.ip && TakesEffect(rounds[i]);
  }

  /** As long as it is one and the same object, nothing is ever lost by skipping. */
  lemma SameServerNeverDiffers(intf: string, stored: Stored, rounds: seq<Round>)
    requires forall r | r in rounds :: r.server == Same
    ensures Elided(intf, Agent("", stored), rounds).stored == Eager(intf, stored, rounds)
  {
    assert NoTrap(rounds);
    SkippingIsInvisible(intf, stored, rounds);
  }
}
