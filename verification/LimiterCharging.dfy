/**
 * The exact accounting of one call of the limiter: what every bucket must hold for a request to
 * pass, and what a request that is denied has taken before.
 */
module LimiterCharging {
  import opened Strings
  import opened TokenBucket
  import opened Limiter

  /** Every bucket is in a valid state. */
  ghost predicate Sound(buckets: Buckets, now: int) {
    forall key <- buckets :: Valid(buckets[key].bucket, now)
  }

  ghost predicate ValidFor(rules: seq<Rule>, req: Request) {
    forall rule <- rules | Matches(rule, req) :: rule.rate >= 1 && rule.burst >= 0
  }

  /** How many matching rules charge the request to the bucket `key`. */
  function Sharing(rules: seq<Rule>, req: Request, key: string): nat {
    if rules == [] then 0
    else (if Matches(rules[0], req) && BuildKey(rules[0], req) == key then 1 else 0) + Sharing(rules[1..], req, key)
  }

  /** The burst of the first matching rule that charges the request to the bucket `key`. */
  function FirstBurst(rules: seq<Rule>, req: Request, key: string): int {
    if rules == [] then 0
    else if Matches(rules[0], req) && BuildKey(rules[0], req) == key then rules[0].burst
    else FirstBurst(rules[1..], req, key)
  }

  /** The position of that rule; the length if there is none. */
  function FirstRule(rules: seq<Rule>, req: Request, key: string): (i: nat)
    ensures i <= |rules|
    ensures i < |rules| ==> Matches(rules[i], req) && BuildKey(rules[i], req) == key
    ensures forall j | 0 <= j < i :: !(Matches(rules[j], req) && BuildKey(rules[j], req) == key)
    ensures FirstBurst(rules, req, key) == if i < |rules| then rules[i].burst else 0
  {
    if rules == [] then 0
    else if Matches(rules[0], req) && BuildKey(rules[0], req) == key then 0
    else 1 + FirstRule(rules[1..], req, key)
  }

  /** What the bucket `key` has to give to a request: all of it when the request creates it. */
  function Level(rules: seq<Rule>, buckets: Buckets, req: Request, key: string, now: int): int {
    if key in buckets then Avail(buckets[key].bucket, now) else FirstBurst(rules, req, key) * TOKEN
  }

  /** The bucket a rule charges: the one there is, or a full one. */
  function BucketFor(buckets: Buckets, key: string, rule: Rule, now: int): Bucket {
    if key in buckets then buckets[key].bucket else Full(rule.rate, rule.burst, now)
  }

  lemma FullIsValid(rule: Rule, now: int)
    requires rule.rate >= 1 && rule.burst >= 0
    ensures Valid(Full(rule.rate, rule.burst, now), now)
    ensures Avail(Full(rule.rate, rule.burst, now), now) == rule.burst * TOKEN
  {
    assert rule.rate * 0 == 0;
  }

  /** A charge takes one token from its own bucket, if there is one, and nothing from the others. */
  lemma ChargeLevel(rules: seq<Rule>, buckets: Buckets, req: Request, now: int)
    requires rules != [] && Matches(rules[0], req) && rules[0].rate >= 1 && rules[0].burst >= 0 && Sound(buckets, now)
    ensures var key := BuildKey(rules[0], req);
      var (after, ok) := Charge(buckets, key, rules[0], now);
      && Sound(after, now) && key in after
      && ok == (Level(rules, buckets, req, key, now) >= TOKEN)
      && Avail(after[key].bucket, now) == Level(rules, buckets, req, key, now) - (if ok then TOKEN else 0)
      && forall k | k != key :: Level(rules[1..], after, req, k, now) == Level(rules, buckets, req, k, now)
  {
    var key := BuildKey(rules[0], req);
    FullIsValid(rules[0], now);
    TakeFacts(BucketFor(buckets, key, rules[0], now), now);
  }

  /** Every bucket the request is charged to holds a token for each rule that charges it. */
  ghost predicate Enough(rules: seq<Rule>, buckets: Buckets, req: Request, now: int) {
    forall rule <- rules | Matches(rule, req) ::
      Level(rules, buckets, req, BuildKey(rule, req), now) >= Sharing(rules, req, BuildKey(rule, req)) * TOKEN
  }

  lemma EnoughSkips(rules: seq<Rule>, buckets: Buckets, req: Request, now: int)
    requires rules != [] && !Matches(rules[0], req)
    ensures Enough(rules, buckets, req, now) <==> Enough(rules[1..], buckets, req, now)
  {
    assert forall key :: Level(rules, buckets, req, key, now) == Level(rules[1..], buckets, req, key, now);
    assert forall rule | rule in rules && Matches(rule, req) :: rule in rules[1..];
    if Enough(rules, buckets, req, now) {
      forall rule <- rules[1..] | Matches(rule, req)
        ensures Level(rules[1..], buckets, req, BuildKey(rule, req), now)
          >= Sharing(rules[1..], req, BuildKey(rule, req)) * TOKEN
      {
        assert rule in rules;
      }
    }
  }

  /** What the first charge needs, and what it leaves to the others. */
  lemma EnoughCharges(rules: seq<Rule>, buckets: Buckets, req: Request, now: int)
    requires rules != [] && Matches(rules[0], req) && rules[0].rate >= 1 && rules[0].burst >= 0 && Sound(buckets, now)
    ensures var (after, ok) := Charge(buckets, BuildKey(rules[0], req), rules[0], now);
      Enough(rules, buckets, req, now) <==> ok && Enough(rules[1..], after, req, now)
  {
    var key := BuildKey(rules[0], req);
    var (after, ok) := Charge(buckets, key, rules[0], now);
    ChargeLevel(rules, buckets, req, now);
    if Enough(rules, buckets, req, now) {
      assert rules[0] in rules;
      forall rule <- rules[1..] | Matches(rule, req)
        ensures Level(rules[1..], after, req, BuildKey(rule, req), now)
          >= Sharing(rules[1..], req, BuildKey(rule, req)) * TOKEN
      {
        assert rule in rules;
      }
    }
    if ok && Enough(rules[1..], after, req, now) {
      forall rule <- rules | Matches(rule, req)
        ensures Level(rules, buckets, req, BuildKey(rule, req), now)
          >= Sharing(rules, req, BuildKey(rule, req)) * TOKEN
      {
        if rule in rules[1..] {
        } else if BuildKey(rule, req) == key {
          FirstOrLater(rules[1..], req, key);
        }
      }
    }
  }

  /** A bucket charged by some rule of a list has a rule there that charges it. */
  lemma {:induction false} FirstOrLater(rules: seq<Rule>, req: Request, key: string)
    ensures Sharing(rules, req, key) > 0 <==> exists rule <- rules :: Matches(rule, req) && BuildKey(rule, req) == key
  {
    if rules != [] {
      FirstOrLater(rules[1..], req, key);
      if Matches(rules[0], req) && BuildKey(rules[0], req) == key {
        assert rules[0] in rules;
      } else if rule :| rule in rules && Matches(rule, req) && BuildKey(rule, req) == key {
        assert rule in rules[1..];
      }
    }
  }

  /** A request passes exactly when every bucket holds a token for each rule that charges it. */
  lemma {:induction false} PassesIff(rules: seq<Rule>, buckets: Buckets, req: Request, now: int)
    requires ValidFor(rules, req) && Sound(buckets, now)
    ensures AllowRules(rules, buckets, req, now).1 == None <==> Enough(rules, buckets, req, now)
    decreases |rules|
  {
    if rules != [] {
      assert rules[0] in rules && forall rule <- rules[1..] :: rule in rules;
      if Matches(rules[0], req) {
        ChargeLevel(rules, buckets, req, now);
        EnoughCharges(rules, buckets, req, now);
        var (after, ok) := Charge(buckets, BuildKey(rules[0], req), rules[0], now);
        if ok {
          PassesIff(rules[1..], after, req, now);
        }
      } else {
        EnoughSkips(rules, buckets, req, now);
        PassesIff(rules[1..], buckets, req, now);
      }
    }
  }

  /** A request removes no bucket. */
  lemma {:induction false} KeysStay(rules: seq<Rule>, buckets: Buckets, req: Request, now: int)
    ensures forall key <- buckets :: key in AllowRules(rules, buckets, req, now).0
    decreases |rules|
  {
    if rules != [] {
      var charged := Charge(buckets, BuildKey(rules[0], req), rules[0], now).0;
      KeysStay(rules[1..], if Matches(rules[0], req) then charged else buckets, req, now);
    }
  }

  /** How many rules the request gets past. */
  function Past(rules: seq<Rule>, buckets: Buckets, req: Request, now: int): (n: nat)
    ensures n <= |rules|
    decreases |rules|
  {
    if rules == [] then 0
    else if !Matches(rules[0], req) then 1 + Past(rules[1..], buckets, req, now)
    else
      var (after, ok) := Charge(buckets, BuildKey(rules[0], req), rules[0], now);
      if ok then 1 + Past(rules[1..], after, req, now) else 0
  }

  /** The request has taken a token from a bucket for each of the first `n` rules that charge it, no more. */
  ghost predicate TakenUpTo(rules: seq<Rule>, before: Buckets, after: Buckets, req: Request, now: int, n: nat)
    requires n <= |rules|
  {
    forall key :: TakenFrom(rules, before, after, req, now, n, key)
  }

  predicate TakenFrom(rules: seq<Rule>, before: Buckets, after: Buckets, req: Request, now: int, n: nat, key: string)
    requires n <= |rules|
  {
    Level(rules, after, req, key, now)
      == Level(rules, before, req, key, now) - Sharing(rules[..n], req, key) * TOKEN
  }

  /**
   * The request has taken a token for every matching rule it got past and none from the denying one
   * on, whose bucket has no token left.
   */
  ghost predicate ChargedExactly(rules: seq<Rule>, buckets: Buckets, req: Request, now: int) {
    var (after, denied) := AllowRules(rules, buckets, req, now);
    var n := Past(rules, buckets, req, now);
    && Sound(after, now) && TakenUpTo(rules, buckets, after, req, now, n)
    && (denied == None <==> n == |rules|)
    && (n < |rules| ==>
          && denied == Some(rules[n]) && Matches(rules[n], req)
          && Level(rules, after, req, BuildKey(rules[n], req), now) < TOKEN)
  }

  /** Every request is charged exactly, from any state. */
  lemma {:induction false} DenialCharges(rules: seq<Rule>, buckets: Buckets, req: Request, now: int)
    requires ValidFor(rules, req) && Sound(buckets, now)
    ensures ChargedExactly(rules, buckets, req, now)
    decreases |rules|
  {
    if rules != [] {
      assert rules[0] in rules && forall rule <- rules[1..] :: rule in rules;
      if !Matches(rules[0], req) {
        DenialCharges(rules[1..], buckets, req, now);
        SkipCharges(rules, buckets, req, now);
      } else {
        ChargeLevel(rules, buckets, req, now);
        var (charged, ok) := Charge(buckets, BuildKey(rules[0], req), rules[0], now);
        if ok {
          DenialCharges(rules[1..], charged, req, now);
          GrantCharges(rules, buckets, req, now);
        } else {
          DenyCharges(rules, buckets, req, now);
        }
      }
    }
  }

  lemma SkipCharges(rules: seq<Rule>, buckets: Buckets, req: Request, now: int)
    requires rules != [] && !Matches(rules[0], req) && ChargedExactly(rules[1..], buckets, req, now)
    ensures ChargedExactly(rules, buckets, req, now)
  {
    var after := AllowRules(rules[1..], buckets, req, now).0;
    TakenSkips(rules, buckets, after, req, now, Past(rules[1..], buckets, req, now));
  }

  lemma GrantCharges(rules: seq<Rule>, buckets: Buckets, req: Request, now: int)
    requires rules != [] && Matches(rules[0], req) && rules[0].rate >= 1 && rules[0].burst >= 0 && Sound(buckets, now)
    requires var (charged, ok) := Charge(buckets, BuildKey(rules[0], req), rules[0], now);
      ok && ChargedExactly(rules[1..], charged, req, now)
    ensures ChargedExactly(rules, buckets, req, now)
  {
    var charged := Charge(buckets, BuildKey(rules[0], req), rules[0], now).0;
    var after := AllowRules(rules[1..], charged, req, now).0;
    KeysStay(rules[1..], charged, req, now);
    TakenMore(rules, buckets, charged, after, req, now, Past(rules[1..], charged, req, now));
  }

  lemma DenyCharges(rules: seq<Rule>, buckets: Buckets, req: Request, now: int)
    requires rules != [] && Matches(rules[0], req) && rules[0].rate >= 1 && rules[0].burst >= 0 && Sound(buckets, now)
    requires !Charge(buckets, BuildKey(rules[0], req), rules[0], now).1
    ensures ChargedExactly(rules, buckets, req, now)
  {
    var key0, after := BuildKey(rules[0], req), Charge(buckets, BuildKey(rules[0], req), rules[0], now).0;
    ChargeLevel(rules, buckets, req, now);
    assert rules[..0] == [];
    forall key ensures TakenFrom(rules, buckets, after, req, now, 0, key) {
      if key != key0 {
        assert Level(rules[1..], after, req, key, now) == Level(rules, buckets, req, key, now);
      }
    }
  }

  lemma SharingTake(rules: seq<Rule>, req: Request, key: string, n: nat)
    requires n < |rules|
    ensures Sharing(rules[..n + 1], req, key)
      == (if Matches(rules[0], req) && BuildKey(rules[0], req) == key then 1 else 0)
         + Sharing(rules[1..][..n], req, key)
  {
    assert rules[..n + 1][1..] == rules[1..][..n] && rules[..n + 1][0] == rules[0];
  }

  lemma TakenSkips(rules: seq<Rule>, before: Buckets, after: Buckets, req: Request, now: int, n: nat)
    requires rules != [] && !Matches(rules[0], req) && n < |rules| && TakenUpTo(rules[1..], before, after, req, now, n)
    ensures TakenUpTo(rules, before, after, req, now, n + 1)
    ensures forall key :: Level(rules, after, req, key, now) == Level(rules[1..], after, req, key, now)
  {
    var m := n + 1;
    forall key ensures TakenFrom(rules, before, after, req, now, m, key) {
      SharingTake(rules, req, key, n);
      assert Level(rules, before, req, key, now) == Level(rules[1..], before, req, key, now);
      assert TakenFrom(rules[1..], before, after, req, now, n, key);
    }
  }

  lemma TakenMore(rules: seq<Rule>, before: Buckets, charged: Buckets, after: Buckets, req: Request, now: int, n: nat)
    requires rules != [] && Matches(rules[0], req) && rules[0].rate >= 1 && rules[0].burst >= 0 && Sound(before, now)
    requires var (c, ok) := Charge(before, BuildKey(rules[0], req), rules[0], now); ok && c == charged
    requires n < |rules| && TakenUpTo(rules[1..], charged, after, req, now, n)
    requires forall key <- charged :: key in after
    ensures TakenUpTo(rules, before, after, req, now, n + 1)
    ensures forall key :: Level(rules, after, req, key, now) == Level(rules[1..], after, req, key, now)
  {
    var key0 := BuildKey(rules[0], req);
    ChargeLevel(rules, before, req, now);
    var m := n + 1;
    forall key ensures TakenFrom(rules, before, after, req, now, m, key) {
      SharingTake(rules, req, key, n);
      assert TakenFrom(rules[1..], charged, after, req, now, n, key);
    }
  }
}
