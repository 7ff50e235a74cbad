/**
 * The split strategies of an expense: an equal split, a split by percentages
 * and a split by explicit amounts, each turning an amount into the share of
 * every participant, keyed by the participant's name.
 */
module Splits {
  import opened Amounts
  import opened Outcomes
  import opened Dicts
  import opened Users

  datatype Split =
    | EqualSplit(amount: real, participants: seq<User>)
    | PercentSplit(amount: real, participants: seq<User>, percentages: Dict)
    | UnequalSplit(amount: real, participants: seq<User>, amounts: Dict)

  /** What the constructors check: the percentages add up to exactly 100, and the
      unequal amounts to the total within a cent. An equal split is not checked. */
  predicate Valid(s: Split)
  {
    match s
    case EqualSplit(_, _) => true
    case PercentSplit(_, _, percentages) => Sum(percentages) == 100.0
    case UnequalSplit(amount, _, amounts) => Abs(Sum(amounts) - amount) <= Tol
  }

  /** PercentSplit(amount, participants, percentages) */
  function NewPercentSplit(amount: real, participants: seq<User>, percentages: Dict): (r: Result<Split>)
    ensures r.Ok? <==> Sum(percentages) == 100.0
    ensures r.Ok? ==> Valid(r.value) && r.value.PercentSplit? && r.value.percentages == percentages
    ensures r.Err? ==> r.error == ValueError("Percentages must sum to 100.")
  {
    if Sum(percentages) != 100.0 then Err(ValueError("Percentages must sum to 100."))
    else Ok(PercentSplit(amount, participants, percentages))
  }

  /** UnequalSplit(amount, participants, amounts) */
  function NewUnequalSplit(amount: real, participants: seq<User>, amounts: Dict): (r: Result<Split>)
    ensures r.Ok? <==> -Tol <= Sum(amounts) - amount <= Tol
    ensures r.Ok? ==> Valid(r.value) && r.value.UnequalSplit? && r.value.amounts == amounts
    ensures r.Err? ==> r.error == ValueError("Sum of unequal shares must equal the total amount.")
  {
    if Abs(Sum(amounts) - amount) > Tol then Err(ValueError("Sum of unequal shares must equal the total amount."))
    else Ok(UnequalSplit(amount, participants, amounts))
  }

  /** The constructors accept exactly the valid splits, and build them unchanged. */
  lemma ConstructorsBuildValid(s: Split)
    ensures s.PercentSplit? ==>
      (Valid(s) <==> NewPercentSplit(s.amount, s.participants, s.percentages) == Ok(s))
    ensures s.UnequalSplit? ==>
      (Valid(s) <==> NewUnequalSplit(s.amount, s.participants, s.amounts) == Ok(s))
  {
  }

  /** Number of leading names that are keys of d: the position of the first name
      that is not, or the length when every name is. */
  function KnownPrefix(names: seq<string>, d: Dict): (n: nat)
    ensures n <= |names|
    ensures forall i :: 0 <= i < n ==> names[i] in d.keys
    ensures n < |names| ==> names[n] !in d.keys
  {
    if names == [] || names[0] !in d.keys then 0 else 1 + KnownPrefix(names[1..], d)
  }

  /** pct percent of the amount, unrounded. */
  function PercentOf(amount: real, pct: real): real
  {
    amount * pct / 100.0
  }

  /** round(amount * pct / 100, 2): within half a cent of pct percent of the amount. */
  function PercentShare(amount: real, pct: real): (r: real)
    ensures -0.005 <= r - PercentOf(amount, pct) <= 0.005
  {
    Round2(amount * pct / 100.0)
  }

  /** Each name's rounded percentage of the amount. */
  function PercentShareOf(amount: real, percentages: Dict): (m: map<string, real>)
    ensures forall n :: n in m <==> n in percentages.keys
  {
    map n | n in percentages.keys :: PercentShare(amount, percentages.values[n])
  }

  /** The unrounded percent shares: [amount * m[name] / 100 for name in names]. */
  function ExactShares(amount: real, names: seq<string>, m: map<string, real>): (xs: seq<real>)
    requires forall n :: n in names ==> n in m
    ensures |xs| == |names| && forall i :: 0 <= i < |names| ==> xs[i] == PercentOf(amount, m[names[i]])
  {
    if names == [] then []
    else ExactShares(amount, names[..|names| - 1], m) + [PercentOf(amount, m[names[|names| - 1]])]
  }

  /** calculate_shares() of each strategy: only a percentage split can fail, with a
      KeyError for a participant name that has no percentage. */
  function CalculateShares(s: Split): (r: Result<Dict>)
    ensures r.Err? ==> s.PercentSplit? && r.error.KeyError? && r.error.key !in s.percentages.keys
  {
    match s
    case EqualSplit(amount, participants) =>
      if |participants| == 0 then Ok(Empty)
      else
        var share := amount / |participants| as real;
        Ok(FromPairs(NamesOf(participants), Repeat(Round2(share), |participants|)))
    case PercentSplit(amount, participants, percentages) =>
      var names := NamesOf(participants);
      var known := KnownPrefix(names, percentages);
      if known < |names| then Err(KeyError(names[known]))
      else Ok(FromPairs(names, Lookup(names, PercentShareOf(amount, percentages))))
    case UnequalSplit(_, _, amounts) =>
      Ok(amounts)
  }

  /** An equal split gives every participant, and nobody else, the amount divided by the
      number of participants, rounded to the cent; nobody at all when there are none. */
  lemma EqualShares(amount: real, participants: seq<User>)
    ensures CalculateShares(EqualSplit(amount, participants)).Ok?
    ensures var shares := CalculateShares(EqualSplit(amount, participants)).value;
      && (forall n :: n in shares.keys <==> n in NamesOf(participants))
      && (forall p :: p in participants ==>
            Get(shares, p.name) == Round2(amount / |participants| as real)
            && -0.005 < Get(shares, p.name) - amount / |participants| as real <= 0.005)
  {
    if participants != [] {
      var names := NamesOf(participants);
      var share := Round2(amount / |participants| as real);
      var vals := Repeat(share, |participants|);
      forall p | p in participants
        ensures p.name in FromPairs(names, vals).keys && Get(FromPairs(names, vals), p.name) == share
      {
        var i :| 0 <= i < |participants| && participants[i] == p;
        FromPairsGet(names, vals, i);
      }
    }
  }

  /** n equal parts of the amount add up to the amount. */
  lemma EqualPartsTotal(amount: real, n: nat)
    requires n > 0
    ensures Total(Repeat(amount / n as real, n)) == amount
  {
    TotalConstant(Repeat(amount / n as real, n), amount / n as real);
    DivideBack(amount, n as real);
  }

  /** With distinct names, the equal shares add up to the amount within half a cent
      per participant. */
  lemma EqualSharesTotal(amount: real, participants: seq<User>)
    requires |participants| > 0 && NoDuplicates(NamesOf(participants))
    ensures var total := Sum(CalculateShares(EqualSplit(amount, participants)).value);
      -(|participants| as real) * 0.005 <= total - amount <= |participants| as real * 0.005
  {
    var exact := amount / |participants| as real;
    var vals := Repeat(Round2(exact), |participants|);
    EqualSharesSum(amount, participants);
    EqualPartsTotal(amount, |participants|);
    TotalNearCopies(vals, exact);
  }

  /** One hundred split six ways gives 16.67 each, which adds up to 100.02: the equal
      shares can miss the amount by more than the one-cent tolerance that an unequal
      split is held to. */
  lemma EqualSharesCanMissByMoreThanACent(participants: seq<User>)
    requires |participants| == 6 && NoDuplicates(NamesOf(participants))
    ensures Sum(CalculateShares(EqualSplit(100.0, participants)).value) == 100.02
    ensures NewUnequalSplit(100.0, participants, CalculateShares(EqualSplit(100.0, participants)).value).Err?
  {
    EqualSharesSum(100.0, participants);
    SixthOfHundred();
    TotalConstant(Repeat(16.67, 6), 16.67);
  }

  /** With distinct names the equal shares add up to the rounded share times the number
      of participants. */
  lemma EqualSharesSum(amount: real, participants: seq<User>)
    requires |participants| > 0 && NoDuplicates(NamesOf(participants))
    ensures Sum(CalculateShares(EqualSplit(amount, participants)).value)
      == Total(Repeat(Round2(amount / |participants| as real), |participants|))
  {
    FromPairsSum(NamesOf(participants), Repeat(Round2(amount / |participants| as real), |participants|));
  }

  /** round(100 / 6, 2) == 16.67 */
  lemma SixthOfHundred()
    ensures Round2(100.0 / 6.0) == 16.67
  {
    assert (100.0 / 6.0 * 100.0 + 0.5).Floor == 1667;
  }

  /** A percent split raises KeyError for the first participant without a percentage,
      and for no other reason. */
  lemma PercentSharesMissing(amount: real, participants: seq<User>, percentages: Dict)
    ensures var r := CalculateShares(PercentSplit(amount, participants, percentages));
      && (r.Ok? <==> forall p :: p in participants ==> p.name in percentages.keys)
      && (r.Err? ==>
            var i := KnownPrefix(NamesOf(participants), percentages);
            && i < |participants|
            && r.error == KeyError(participants[i].name)
            && participants[i].name !in percentages.keys
            && forall j :: 0 <= j < i ==> participants[j].name in percentages.keys)
  {
    var names := NamesOf(participants);
    if KnownPrefix(names, percentages) == |names| {
      forall p | p in participants ensures p.name in percentages.keys {
        var i :| 0 <= i < |participants| && participants[i] == p;
        assert names[i] == p.name;
      }
    }
  }

  /** When every participant has a percentage, each participant's share is its
      percentage of the amount, rounded to the cent, and nobody else has a share. */
  lemma PercentSharesKnown(amount: real, participants: seq<User>, percentages: Dict)
    requires forall p :: p in participants ==> p.name in percentages.keys
    ensures CalculateShares(PercentSplit(amount, participants, percentages)).Ok?
    ensures var shares := CalculateShares(PercentSplit(amount, participants, percentages)).value;
      && (forall n :: n in shares.keys <==> n in NamesOf(participants))
      && forall p :: p in participants ==>
           Get(shares, p.name) == PercentShare(amount, Get(percentages, p.name))
  {
    var names := NamesOf(participants);
    PercentSharesMissing(amount, participants, percentages);
    FromPairsLookup(names, PercentShareOf(amount, percentages));
    forall p | p in participants
      ensures Get(CalculateShares(PercentSplit(amount, participants, percentages)).value, p.name)
        == PercentShare(amount, Get(percentages, p.name))
    {
      var i :| 0 <= i < |participants| && participants[i] == p;
      assert names[i] == p.name;
    }
  }

  /** When the participants are exactly the keys of percentages adding up to 100, the
      shares add up to the amount within half a cent per participant. */
  lemma PercentSharesTotal(amount: real, participants: seq<User>, percentages: Dict)
    requires NoDuplicates(NamesOf(participants))
    requires forall n :: n in NamesOf(participants) <==> n in percentages.keys
    requires Sum(percentages) == 100.0
    ensures CalculateShares(PercentSplit(amount, participants, percentages)).Ok?
    ensures var total := Sum(CalculateShares(PercentSplit(amount, participants, percentages)).value);
      -(|participants| as real) * 0.005 <= total - amount <= |participants| as real * 0.005
  {
    var names := NamesOf(participants);
    PercentSharesMissing(amount, participants, percentages);
    PercentSharesSum(amount, participants, percentages);
    PercentRoundedTotal(amount, names, percentages);
    SumOverReordered(names, percentages.keys, percentages.values);
    assert PercentOf(amount, 100.0) == amount;
  }

  /** With distinct names that all have a percentage, the shares add up to the rounded
      percent shares listed in participant order. */
  lemma PercentSharesSum(amount: real, participants: seq<User>, percentages: Dict)
    requires NoDuplicates(NamesOf(participants))
    requires forall n :: n in NamesOf(participants) ==> n in percentages.keys
    ensures CalculateShares(PercentSplit(amount, participants, percentages)).Ok?
    ensures Sum(CalculateShares(PercentSplit(amount, participants, percentages)).value)
      == Total(Lookup(NamesOf(participants), PercentShareOf(amount, percentages)))
  {
    var names := NamesOf(participants);
    var vals := Lookup(names, PercentShareOf(amount, percentages));
    assert KnownPrefix(names, percentages) == |names|;
    assert CalculateShares(PercentSplit(amount, participants, percentages)) == Ok(FromPairs(names, vals));
    FromPairsSum(names, vals);
  }

  /** The rounded percent shares of the names add up to within half a cent per name of
      the percentage of the amount given by their percentages added up. */
  lemma PercentRoundedTotal(amount: real, names: seq<string>, percentages: Dict)
    requires forall n :: n in names ==> n in percentages.keys
    ensures var total := Total(Lookup(names, PercentShareOf(amount, percentages)));
      var exact := PercentOf(amount, SumOver(names, percentages.values));
      -(|names| as real) * 0.005 <= total - exact <= |names| as real * 0.005
  {
    var vals := Lookup(names, PercentShareOf(amount, percentages));
    var exact := ExactShares(amount, names, percentages.values);
    PercentRounding(amount, names, percentages);
    TotalNear(vals, exact);
    ExactSharesTotal(amount, names, percentages.values);
  }

  /** Taking a percentage distributes over adding percentages. */
  lemma PercentOfAdds(amount: real, a: real, b: real)
    ensures PercentOf(amount, a + b) == PercentOf(amount, a) + PercentOf(amount, b)
  {
    assert amount * (a + b) == amount * a + amount * b;
  }

  /** The unrounded percent shares add up to the percentage of the amount given by the
      percentages added up. */
  lemma {:induction false} ExactSharesTotal(amount: real, names: seq<string>, m: map<string, real>)
    requires forall n :: n in names ==> n in m
    ensures Total(ExactShares(amount, names, m)) == PercentOf(amount, SumOver(names, m))
  {
    if names != [] {
      var n := |names| - 1;
      ExactSharesTotal(amount, names[..n], m);
      SumOverAppend(names[..n], m, names[n]);
      assert names[..n] + [names[n]] == names;
      PercentOfAdds(amount, SumOver(names[..n], m), m[names[n]]);
    }
  }

  /** Each rounded percent share is within half a cent of the exact one. */
  lemma PercentRounding(amount: real, names: seq<string>, percentages: Dict)
    requires forall n :: n in names ==> n in percentages.keys
    ensures var vals := Lookup(names, PercentShareOf(amount, percentages));
      var exact := ExactShares(amount, names, percentages.values);
      forall i :: 0 <= i < |names| ==> -0.005 <= vals[i] - exact[i] <= 0.005
  {
    var vals := Lookup(names, PercentShareOf(amount, percentages));
    var exact := ExactShares(amount, names, percentages.values);
    forall i | 0 <= i < |names| ensures -0.005 <= vals[i] - exact[i] <= 0.005 {
      var v := percentages.values[names[i]];
      assert vals[i] == PercentShare(amount, v);
      assert exact[i] == PercentOf(amount, v);
    }
  }

  /** An unequal split hands back its amounts as they are; a constructed one adds up
      to the amount within a cent. */
  lemma UnequalShares(s: Split)
    requires s.UnequalSplit?
    ensures CalculateShares(s) == Ok(s.amounts)
    ensures Valid(s) ==> -Tol <= Sum(CalculateShares(s).value) - s.amount <= Tol
  {
  }
}
