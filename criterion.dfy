/** `SLRModel.criterion_calculation` of slr_network_multi_add_block_sim.py:
    which named loss terms a set of loss weights switches on, and the total
    they add up to. The loss values themselves (sequence CTC, distillation,
    cosine) are inputs, and numbers are exact reals. */
module Criterion {
  import opened Wrappers

  /** The loss weights in their order, as the config dictionary holds them. */
  type Weights = seq<(string, real)>

  /** The criteria's values for branch 0 (the one the `SeqCTC`, `ConvCTC`
      and `Dist` weights read), 1 (`Slow`) and 2 (`Fast`); `Cosine_i` reads
      branch `i`. */
  datatype RawLosses = RawLosses(
    seqCtc: seq<real>,   // CTC loss of the branch's sequence logits
    convCtc: seq<real>,  // CTC loss of the branch's convolution logits
    dist: seq<real>,     // distillation from the branch's sequence logits to its convolution logits
    cosine: seq<real>)   // cosine loss between the branch's pooled features and the gloss features

  predicate ThreeBranches(raw: RawLosses)
  {
    |raw.seqCtc| == 3 && |raw.convCtc| == 3 && |raw.dist| == 3 && |raw.cosine| == 3
  }

  /** An entry `total_loss[name] = value`. */
  datatype LossTerm = LossTerm(name: string, value: real)

  datatype LossError = MissingWeight(key: string)  // `self.loss_weights[key]` of an absent key

  datatype Losses = Losses(loss: real, totals: seq<LossTerm>)

  function Lookup(w: Weights, key: string): Option<real>
  {
    if w == [] then None
    else if w[|w| - 1].0 == key then Some(w[|w| - 1].1)
    else Lookup(w[..|w| - 1], key)
  }

  predicate Has(w: Weights, key: string)
  {
    Lookup(w, key).Some?
  }

  ghost predicate DistinctKeys(w: Weights)
  {
    forall i, j :: 0 <= i < j < |w| ==> w[i].0 != w[j].0
  }

  /** `weight * value`. */
  function Scaled(weight: real, value: real): real
  {
    weight * value
  }

  /** The term `name` scaled by `weight` and by `factor`, when that weight exists. */
  function IfWeighted(name: string, factor: Option<real>, weight: real, value: real): seq<LossTerm>
  {
    match factor
    case None => []
    case Some(f) => [LossTerm(name, Scaled(Scaled(weight, f), value))]
  }

  /** The terms of the slow (`i == 1`) or the fast (`i == 2`) stream. */
  function StreamTerms(i: nat, weight: real, seqWeight: real, w: Weights, raw: RawLosses): seq<LossTerm>
    requires ThreeBranches(raw) && 1 <= i <= 2
  {
    [LossTerm(if i == 1 then "Slow_1" else "Fast_2", Scaled(Scaled(weight, seqWeight), raw.seqCtc[i]))]
    + IfWeighted(if i == 1 then "ConvCTC_1" else "ConvCTC_2", Lookup(w, "ConvCTC"), weight, raw.convCtc[i])
    + IfWeighted(if i == 1 then "Dist_1" else "Dist_2", Lookup(w, "Dist"), weight, raw.dist[i])
  }

  /** The names `f'Cosine_{i}'` of the three branches' cosine terms. */
  const CosineNames: seq<string> := ["Cosine_0", "Cosine_1", "Cosine_2"]

  /** The terms that the weight `key` adds (lines 186-236), looking up the
      other weights in `w`. */
  function TermsFor(key: string, weight: real, w: Weights, raw: RawLosses): Result<seq<LossTerm>, LossError>
    requires ThreeBranches(raw)
  {
    if key == "SeqCTC" then Ok([LossTerm("SeqCTC", Scaled(weight, raw.seqCtc[0]))])
    else if key == "Slow" || key == "Fast" then
      match Lookup(w, "SeqCTC")
      case None => Err(MissingWeight("SeqCTC"))
      case Some(seqWeight) => Ok(StreamTerms(if key == "Slow" then 1 else 2, weight, seqWeight, w, raw))
    else if key == "ConvCTC" then Ok([LossTerm("ConvCTC", Scaled(weight, raw.convCtc[0]))])
    else if key == "Dist" then Ok([LossTerm("Dist", Scaled(weight, raw.dist[0]))])
    else if key == "Cosine" then
      Ok(seq(3, i requires 0 <= i < 3 => LossTerm(CosineNames[i], Scaled(weight, raw.cosine[i]))))
    else Ok([])
  }

  /** The terms of the weights `entries`, in order; the first failing weight fails the whole. */
  function AllTerms(entries: Weights, w: Weights, raw: RawLosses): Result<seq<LossTerm>, LossError>
    requires ThreeBranches(raw)
  {
    if entries == [] then Ok([])
    else match AllTerms(entries[..|entries| - 1], w, raw)
      case Err(e) => Err(e)
      case Ok(ts) =>
        var e := entries[|entries| - 1];
        match TermsFor(e.0, e.1, w, raw)
        case Err(err) => Err(err)
        case Ok(more) => Ok(ts + more)
  }

  /** The sum of the values of `terms`. */
  function Total(terms: seq<LossTerm>): real
  {
    if terms == [] then 0.0 else Total(terms[..|terms| - 1]) + terms[|terms| - 1].value
  }

  function Names(terms: seq<LossTerm>): (r: seq<string>)
    ensures |r| == |terms| && forall i :: 0 <= i < |terms| ==> r[i] == terms[i].name
  {
    seq(|terms|, i requires 0 <= i < |terms| => terms[i].name)
  }

  /** The table of which weight key produces which loss name, given all weights `w`. */
  predicate Produces(key: string, name: string, w: Weights)
  {
    || (key == "SeqCTC" && name == "SeqCTC")
    || (key == "Slow" && (name == "Slow_1"
                          || (name == "ConvCTC_1" && Has(w, "ConvCTC"))
                          || (name == "Dist_1" && Has(w, "Dist"))))
    || (key == "Fast" && (name == "Fast_2"
                          || (name == "ConvCTC_2" && Has(w, "ConvCTC"))
                          || (name == "Dist_2" && Has(w, "Dist"))))
    || (key == "ConvCTC" && name == "ConvCTC")
    || (key == "Dist" && name == "Dist")
    || (key == "Cosine" && (name == "Cosine_0" || name == "Cosine_1" || name == "Cosine_2"))
  }

  lemma TermsForNames(key: string, weight: real, w: Weights, raw: RawLosses)
    requires ThreeBranches(raw) && TermsFor(key, weight, w, raw).Ok?
    ensures var names := Names(TermsFor(key, weight, w, raw).value);
      && (forall name :: name in names <==> Produces(key, name, w))
      && (forall i, j :: 0 <= i < j < |names| ==> names[i] != names[j])
  {
    var names := Names(TermsFor(key, weight, w, raw).value);
    if key == "Slow" || key == "Fast" {
      var i := if key == "Slow" then 1 else 2;
      var own := if i == 1 then "Slow_1" else "Fast_2";
      var conv := if Has(w, "ConvCTC") then [if i == 1 then "ConvCTC_1" else "ConvCTC_2"] else [];
      var dist := if Has(w, "Dist") then [if i == 1 then "Dist_1" else "Dist_2"] else [];
      assert names == [own] + conv + dist;
    } else if key == "Cosine" {
      assert names == CosineNames;
      forall name ensures name in names <==> Produces(key, name, w) {
        assert name in names <==> name == "Cosine_0" || name == "Cosine_1" || name == "Cosine_2";
      }
    } else if key == "SeqCTC" || key == "ConvCTC" || key == "Dist" {
      assert names == [key];
      forall name ensures name in names <==> Produces(key, name, w) {
        assert name in names <==> name == key;
      }
    } else {
      assert names == [];
    }
  }

  /** No loss name is produced by two different keys. */
  lemma ProducerUnique(k1: string, k2: string, name: string, w: Weights)
    requires Produces(k1, name, w) && Produces(k2, name, w)
    ensures k1 == k2
  {
  }

  /** The error of line 195: a slow or fast weight without a sequence CTC weight. */
  lemma {:induction false} AllTermsFails(entries: Weights, w: Weights, raw: RawLosses)
    requires ThreeBranches(raw)
    ensures AllTerms(entries, w, raw).Err? <==>
      !Has(w, "SeqCTC") && exists i :: 0 <= i < |entries| && (entries[i].0 == "Slow" || entries[i].0 == "Fast")
    ensures AllTerms(entries, w, raw).Err? ==> AllTerms(entries, w, raw).error == MissingWeight("SeqCTC")
  {
    if entries != [] {
      var init := entries[..|entries| - 1];
      AllTermsFails(init, w, raw);
      assert forall i :: 0 <= i < |init| ==> init[i] == entries[i];
    }
  }

  /** Each term comes from exactly one weight key, by the table `Produces`. */
  lemma {:induction false} AllTermsNameSet(entries: Weights, w: Weights, raw: RawLosses)
    requires ThreeBranches(raw) && AllTerms(entries, w, raw).Ok?
    ensures forall name :: name in Names(AllTerms(entries, w, raw).value) <==>
      exists i :: 0 <= i < |entries| && Produces(entries[i].0, name, w)
  {
    if entries != [] {
      var init, e := entries[..|entries| - 1], entries[|entries| - 1];
      AllTermsNameSet(init, w, raw);
      var ts := AllTerms(init, w, raw).value;
      var more := TermsFor(e.0, e.1, w, raw).value;
      TermsForNames(e.0, e.1, w, raw);
      var names := Names(ts + more);
      assert names == Names(ts) + Names(more);
      forall name ensures name in names <==> exists i :: 0 <= i < |entries| && Produces(entries[i].0, name, w) {
        if name in Names(ts) {
          var i :| 0 <= i < |init| && Produces(init[i].0, name, w);
          assert entries[i] == init[i];
        }
        if exists i :: 0 <= i < |entries| && Produces(entries[i].0, name, w) {
          var i :| 0 <= i < |entries| && Produces(entries[i].0, name, w);
          if i < |init| { assert init[i] == entries[i]; }
        }
      }
    }
  }

  /** With distinct weight keys no loss name occurs twice: every `total_loss`
      entry is written once, and `loss` adds each term once. */
  lemma {:induction false} AllTermsNamesDistinct(entries: Weights, w: Weights, raw: RawLosses)
    requires ThreeBranches(raw) && DistinctKeys(entries) && AllTerms(entries, w, raw).Ok?
    ensures var names := Names(AllTerms(entries, w, raw).value);
      forall i, j :: 0 <= i < j < |names| ==> names[i] != names[j]
  {
    if entries != [] {
      var init, e := entries[..|entries| - 1], entries[|entries| - 1];
      AllTermsNamesDistinct(init, w, raw);
      AllTermsNameSet(init, w, raw);
      var ts := AllTerms(init, w, raw).value;
      var more := TermsFor(e.0, e.1, w, raw).value;
      TermsForNames(e.0, e.1, w, raw);
      var names := Names(ts + more);
      assert names == Names(ts) + Names(more);
      forall i, j | 0 <= i < j < |names| ensures names[i] != names[j] {
        if i < |ts| <= j {
          assert names[i] == Names(ts)[i] && names[i] in Names(ts);
          assert names[j] == Names(more)[j - |ts|] && names[j] in Names(more);
          assert init + [e] == entries;
          NotProducedTwice(init, e, w, names[i], names[j]);
        } else if |ts| <= i {
          assert names[i] == Names(more)[i - |ts|];
          assert names[j] == Names(more)[j - |ts|];
        }
      }
    }
  }

  lemma NotProducedTwice(init: Weights, e: (string, real), w: Weights, a: string, b: string)
    requires DistinctKeys(init + [e])
    requires exists i :: 0 <= i < |init| && Produces(init[i].0, a, w)
    requires Produces(e.0, b, w)
    ensures a != b
  {
    var i :| 0 <= i < |init| && Produces(init[i].0, a, w);
    assert (init + [e])[i] == init[i] && (init + [e])[|init|] == e;
    if a == b {
      ProducerUnique(init[i].0, e.0, a, w);
    }
  }

  /** The loop of lines 183-237: the terms of every weight in order, and their sum. */
  method CriterionCalculation(w: Weights, raw: RawLosses) returns (r: Result<Losses, LossError>)
    requires ThreeBranches(raw)
    ensures r.Err? <==> AllTerms(w, w, raw).Err?
    ensures r.Err? ==> r.error == AllTerms(w, w, raw).error
    ensures r.Ok? ==> r.value.totals == AllTerms(w, w, raw).value && r.value.loss == Total(r.value.totals)
  {
    var loss := 0.0;
    var totals: seq<LossTerm> := [];
    for n := 0 to |w|
      invariant AllTerms(w[..n], w, raw) == Ok(totals)
      invariant loss == Total(totals)
    {
      assert w[..n + 1][..n] == w[..n];
      var added := WeightTerms(w[n].0, w[n].1, w, raw);
      if added.Err? {
        r := Err(added.error);
        AllTermsErrorSticks(w, n + 1, raw);
        return;
      }
      TotalAppend(totals, added.value);
      totals := totals + added.value;
      loss := loss + Total(added.value);
    }
    assert w[..|w|] == w;
    r := Ok(Losses(loss, totals));
  }

  /** One pass of that loop's body: the terms the weight `key` adds, computed
      statement by statement as lines 186-236 do (including the inner loop over
      the three cosine terms); `TermsFor` is its specification. */
  method WeightTerms(key: string, weight: real, w: Weights, raw: RawLosses) returns (r: Result<seq<LossTerm>, LossError>)
    requires ThreeBranches(raw)
    ensures r.Ok? == TermsFor(key, weight, w, raw).Ok?
    ensures r.Ok? ==> r.value == TermsFor(key, weight, w, raw).value
    ensures r.Err? ==> r.error == TermsFor(key, weight, w, raw).error
  {
    if key == "SeqCTC" {
      return Ok([LossTerm("SeqCTC", Scaled(weight, raw.seqCtc[0]))]);
    } else if key == "Slow" || key == "Fast" {
      var i := if key == "Slow" then 1 else 2;
      var seqWeight := Lookup(w, "SeqCTC");
      if seqWeight.None? {
        return Err(MissingWeight("SeqCTC"));
      }
      var own := [LossTerm(if i == 1 then "Slow_1" else "Fast_2", Scaled(Scaled(weight, seqWeight.value), raw.seqCtc[i]))];
      var conv: seq<LossTerm> := [];
      var convWeight := Lookup(w, "ConvCTC");
      if convWeight.Some? {
        conv := [LossTerm(if i == 1 then "ConvCTC_1" else "ConvCTC_2", Scaled(Scaled(weight, convWeight.value), raw.convCtc[i]))];
      }
      var dist: seq<LossTerm> := [];
      var distWeight := Lookup(w, "Dist");
      if distWeight.Some? {
        dist := [LossTerm(if i == 1 then "Dist_1" else "Dist_2", Scaled(Scaled(weight, distWeight.value), raw.dist[i]))];
      }
      return Ok(own + conv + dist);
    } else if key == "ConvCTC" {
      return Ok([LossTerm("ConvCTC", Scaled(weight, raw.convCtc[0]))]);
    } else if key == "Dist" {
      return Ok([LossTerm("Dist", Scaled(weight, raw.dist[0]))]);
    } else if key == "Cosine" {
      var added := [];
      for i := 0 to 3
        invariant |added| == i
        invariant forall m :: 0 <= m < i ==> added[m] == LossTerm(CosineNames[m], Scaled(weight, raw.cosine[m]))
      {
        added := added + [LossTerm(CosineNames[i], Scaled(weight, raw.cosine[i]))];
      }
      var v := TermsFor(key, weight, w, raw).value;
      assert v[0] == added[0] && v[1] == added[1] && v[2] == added[2];
      return Ok(added);
    }
    return Ok([]);
  }

  lemma {:induction false} TotalAppend(a: seq<LossTerm>, b: seq<LossTerm>)
    ensures Total(a + b) == Total(a) + Total(b)
    decreases |b|
  {
    if b == [] {
      assert a + b == a;
    } else {
      assert (a + b)[..|a + b| - 1] == a + b[..|b| - 1];
      TotalAppend(a, b[..|b| - 1]);
    }
  }

  lemma {:induction false} AllTermsErrorSticks(w: Weights, n: nat, raw: RawLosses)
    requires ThreeBranches(raw) && n <= |w| && AllTerms(w[..n], w, raw).Err?
    ensures AllTerms(w, w, raw) == AllTerms(w[..n], w, raw)
    decreases |w| - n
  {
    if n < |w| {
      assert w[..n + 1][..n] == w[..n];
      AllTermsErrorSticks(w, n + 1, raw);
    } else {
      assert w[..n] == w;
    }
  }
}
