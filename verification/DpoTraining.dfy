/**
 * One epoch of preference training (scripts/sleep_external_train.py): cutting a row to the length
 * limit, scoring its completion, and accumulating gradients over optimizer steps.
 */
module DpoTraining {
  import opened Sequences

  const Ignore := -100

  // ------------------------------------------------------------------ cutting a row

  /** `xs[-n:]` for n > 0. */
  function Back<T>(xs: seq<T>, n: int): seq<T>
    requires n > 0
  { if n < |xs| then xs[|xs| - n..] else xs }

  function CutCompletion(completion: seq<nat>, maxLength: int): seq<nat> {
    if |completion| > maxLength - 1 then Front(completion, maxLength - 1) else completion
  }

  function CutPrompt(prompt: seq<nat>, completion: seq<nat>, maxLength: int): seq<nat> {
    if |prompt| + |completion| > maxLength then
      if maxLength - |completion| > 0 then Back(prompt, maxLength - |completion|) else []
    else prompt
  }

  function Masked(n: nat): seq<int> { seq(n, i => Ignore) }

  function Labelled(prompt: seq<nat>, completion: seq<nat>): seq<int> {
    Masked(|prompt|) + seq(|completion|, i requires 0 <= i < |completion| => completion[i] as int)
  }

  /** `encode_one`: the token ids and their labels. */
  method EncodeOne(prompt: seq<nat>, completion: seq<nat>, maxLength: int) returns (ids: seq<nat>, labels: seq<int>)
    ensures var c := CutCompletion(completion, maxLength); var p := CutPrompt(prompt, c, maxLength);
            ids == p + c && labels == Labelled(p, c)
  {
    var c := completion;
    if |c| > maxLength - 1 {
      c := Front(c, maxLength - 1);
    }
    var p := prompt;
    if |p| + |c| > maxLength {
      var keep := maxLength - |c|;
      if keep > 0 {
        p := Back(p, keep);
      } else {
        p := [];
      }
    }
    ids := p + c;
    labels := Labelled(p, c);
  }

  function EncodedLength(prompt: seq<nat>, completion: seq<nat>, maxLength: int): nat {
    var c := CutCompletion(completion, maxLength);
    |CutPrompt(prompt, c, maxLength)| + |c|
  }

  /** Every row fits the limit exactly when the limit is at least one. */
  lemma EncodedFitsExactly(maxLength: int)
    ensures (forall p, c :: EncodedLength(p, c, maxLength) <= maxLength) <==> maxLength >= 1
  {
    if maxLength < 1 {
      assert EncodedLength([], [0, 0], maxLength) > maxLength || EncodedLength([], [], maxLength) > maxLength;
    }
  }

  /** What is cut: the end of the completion and the start of the prompt, and no more than needed. */
  lemma EncodedKeeps(prompt: seq<nat>, completion: seq<nat>, maxLength: int)
    requires maxLength >= 1
    ensures var c := CutCompletion(completion, maxLength); var p := CutPrompt(prompt, c, maxLength);
            && c <= completion && |c| == (if |completion| < maxLength then |completion| else maxLength - 1)
            && |p| <= |prompt| && p == prompt[|prompt| - |p|..]
            && (p == prompt || |p| + |c| == maxLength)
            && (p == [] <==> prompt == [])
  {}

  // ------------------------------------------------------------------ scoring a completion

  /** The log-probability the model gives to a token after a prefix. */
  type Scorer = (seq<nat>, nat) -> real

  predicate SuffixLabelled(ids: seq<nat>, labels: seq<int>, k: nat) {
    && k <= |ids| == |labels|
    && (forall i | 0 <= i < k :: labels[i] == Ignore)
    && (forall i | k <= i < |ids| :: labels[i] == ids[i] as int)
  }

  /** The reference: every labelled token that has a token before it, scored after its prefix. */
  function MaskedSum(score: Scorer, ids: seq<nat>, labels: seq<int>, to: nat): real
    requires to <= |ids| == |labels|
  {
    if to == 0 then 0.0
    else MaskedSum(score, ids, labels, to - 1)
         + (if to - 1 >= 1 && labels[to - 1] != Ignore then score(ids[..to - 1], ids[to - 1]) else 0.0)
  }

  /** How the scores of the last `m` tokens add up, in the order of the tokens. */
  function TailSum(score: Scorer, ids: seq<nat>, start: nat, to: nat): real
    requires start <= to <= |ids|
  {
    if to == start then 0.0 else TailSum(score, ids, start, to - 1) + score(ids[..to - 1], ids[to - 1])
  }

  lemma {:induction false} MaskedIsTail(score: Scorer, ids: seq<nat>, labels: seq<int>, k: nat, to: nat)
    requires SuffixLabelled(ids, labels, k) && to <= |ids|
    ensures var start := if k == 0 then 1 else k;
            MaskedSum(score, ids, labels, to) == if to <= start then 0.0 else TailSum(score, ids, start, to)
  {
    if to > 0 { MaskedIsTail(score, ids, labels, k, to - 1); }
  }

  /** Logits stand for the prefixes they were computed from; a model keeps the last `keep` of them,
      or ignores the request and returns all. */
  function Logits(ids: seq<nat>, keep: nat, honoured: bool): seq<seq<nat>>
    requires keep <= |ids|
  {
    var all := seq(|ids|, i requires 0 <= i < |ids| => ids[..i + 1]);
    if honoured then all[|ids| - keep..] else all
  }

  /** `logits[-(n+1):-1]` and `ids[-n:]` line up: each prediction is the prefix of its target. */
  lemma PredictionsAlign(ids: seq<nat>, n: nat, honoured: bool, j: nat)
    requires 0 < n < |ids| && j < n
    ensures var logits := Logits(ids, n + 1, honoured);
            var start := |ids| - n;
            && |logits| >= n + 1
            && logits[|logits| - (n + 1)..|logits| - 1][j] == ids[..start + j]
            && ids[|ids| - n..][j] == ids[start + j]
  {}

  method CountLabels(labels: seq<int>, ghost ids: seq<nat>, ghost k: nat) returns (n: nat)
    requires SuffixLabelled(ids, labels, k)
    ensures n == |ids| - k
  {
    n := 0;
    for i := 0 to |labels|
      invariant n == if i <= k then 0 else i - k
    {
      if labels[i] != Ignore {
        n := n + 1;
      }
    }
  }

  /** The scores of the last `n` tokens, gathered and summed. */
  method SumTail(score: Scorer, ids: seq<nat>, n: nat, honoured: bool) returns (sum: real)
    requires 0 < n < |ids|
    ensures sum == TailSum(score, ids, |ids| - n, |ids|)
  {
    var predictions, targets := Aligned(ids, n, honoured);
    var start := |ids| - n;
    sum := 0.0;
    for j := 0 to n
      invariant sum == TailSum(score, ids, start, start + j)
    {
      TailLonger(score, ids, start, start + j);
      sum := sum + score(predictions[j], targets[j]);
    }
  }

  /** The last `n` predictions and the last `n` tokens. */
  method Aligned(ids: seq<nat>, n: nat, honoured: bool) returns (predictions: seq<seq<nat>>, targets: seq<nat>)
    requires 0 < n < |ids|
    ensures |predictions| == |targets| == n
    ensures forall j | 0 <= j < n :: predictions[j] == ids[..|ids| - n + j] && targets[j] == ids[|ids| - n + j]
  {
    var logits := Logits(ids, n + 1, honoured);
    predictions := logits[|logits| - (n + 1)..|logits| - 1];
    targets := ids[|ids| - n..];
    forall j | 0 <= j < n ensures predictions[j] == ids[..|ids| - n + j] && targets[j] == ids[|ids| - n + j] {
      PredictionsAlign(ids, n, honoured, j);
    }
  }

  lemma TailLonger(score: Scorer, ids: seq<nat>, start: nat, to: nat)
    requires start <= to < |ids|
    ensures TailSum(score, ids, start, to + 1) == TailSum(score, ids, start, to) + score(ids[..to], ids[to])
  {}

  /** `completion_logprob`, for a model that honours `logits_to_keep` or one that does not. */
  method CompletionLogProb(score: Scorer, ids: seq<nat>, labels: seq<int>, honoured: bool, ghost k: nat) returns (sum: real)
    requires SuffixLabelled(ids, labels, k)
    ensures sum == MaskedSum(score, ids, labels, |ids|)
  {
    MaskedIsTail(score, ids, labels, k, |ids|);
    var count := CountLabels(labels, ids, k);
    var n: int := count;
    if |ids| - 1 < n {
      n := |ids| - 1;
    }
    if n <= 0 {
      return 0.0;
    }
    sum := SumTail(score, ids, n, honoured);
  }

  predicate AllScored(labels: seq<int>) { forall i | 0 <= i < |labels| :: labels[i] != Ignore ==> i >= 1 }

  /** Every completion token that was kept is scored exactly when some prompt was kept before it. */
  lemma AllScoredExactly(prompt: seq<nat>, completion: seq<nat>)
    ensures SuffixLabelled(prompt + completion, Labelled(prompt, completion), |prompt|)
    ensures forall i | 0 <= i < |prompt| :: Labelled(prompt, completion)[i] == -100
    ensures AllScored(Labelled(prompt, completion)) <==> prompt != [] || completion == []
  {
    if completion != [] { assert Labelled(prompt, completion)[|prompt|] != Ignore; }
  }

  /** The score of an encoded row is the sum over all its kept completion tokens when the row has a
      prompt, whatever the limit cuts. */
  lemma EncodedScore(score: Scorer, prompt: seq<nat>, completion: seq<nat>, maxLength: int)
    requires maxLength >= 1 && prompt != []
    ensures var c := CutCompletion(completion, maxLength); var p := CutPrompt(prompt, c, maxLength);
            MaskedSum(score, p + c, Labelled(p, c), |p + c|) == TailSum(score, p + c, |p|, |p + c|)
  {
    EncodedKeeps(prompt, completion, maxLength);
    var c := CutCompletion(completion, maxLength);
    var p := CutPrompt(prompt, c, maxLength);
    AllScoredExactly(p, c);
    MaskedIsTail(score, p + c, Labelled(p, c), |p|, |p + c|);
  }

  /** One half of a row, encoded and scored: all its labelled tokens that have a token before them, which
      for a row with a prompt are all its kept completion tokens. */
  method ScoreRow(score: Scorer, prompt: seq<nat>, completion: seq<nat>, maxLength: int, honoured: bool)
    returns (sum: real)
    ensures var c := CutCompletion(completion, maxLength); var p := CutPrompt(prompt, c, maxLength);
            && sum == MaskedSum(score, p + c, Labelled(p, c), |p + c|)
            && (maxLength >= 1 && prompt != [] ==> sum == TailSum(score, p + c, |p|, |p + c|))
  {
    ghost var c := CutCompletion(completion, maxLength);
    ghost var p := CutPrompt(prompt, c, maxLength);
    var ids, labels := EncodeOne(prompt, completion, maxLength);
    AllScoredExactly(p, c);
    sum := CompletionLogProb(score, ids, labels, honoured, |p|);
    if maxLength >= 1 && prompt != [] { EncodedScore(score, prompt, completion, maxLength); }
  }

  /** Without a prompt the first completion token is not scored. */
  lemma FirstTokenUnscored(score: Scorer, completion: seq<nat>)
    requires completion != []
    ensures MaskedSum(score, completion, Labelled([], completion), |completion|) == TailSum(score, completion, 1, |completion|)
  {
    AllScoredExactly([], completion);
    assert [] + completion == completion;
    MaskedIsTail(score, completion, Labelled([], completion), 0, |completion|);
  }

  // ------------------------------------------------------------------ accumulating gradients

  /** What training does with parameters S, gradients G and rows R: the gradient of a row's loss
      divided by the accumulation, the sum of gradients, and one optimizer step. */
  datatype Learner<!S, !G, !R> = Learner(
    zero: G,
    add: (G, G) -> G,
    gradient: (S, R) -> G,
    step: (S, G) -> S,
    loss: (S, R) -> real)

  /** The rows in groups of `size`, the last possibly shorter. */
  function Groups<R>(rows: seq<R>, size: nat): seq<seq<R>>
    requires size > 0
  {
    if rows == [] then []
    else if |rows| <= size then [rows]
    else [rows[..size]] + Groups(rows[size..], size)
  }

  function Gradient<S, G, R>(l: Learner<S, G, R>, s: S, rows: seq<R>): G {
    if rows == [] then l.zero else l.add(Gradient(l, s, rows[..|rows| - 1]), l.gradient(s, rows[|rows| - 1]))
  }

  /** One step per group, each on the gradients of its own rows at the parameters it starts from. */
  function Trained<S, G, R>(l: Learner<S, G, R>, s: S, groups: seq<seq<R>>): S {
    if groups == [] then s else Trained(l, l.step(s, Gradient(l, s, groups[0])), groups[1..])
  }

  function GroupLosses<S, G, R>(l: Learner<S, G, R>, s: S, rows: seq<R>): seq<real> {
    seq(|rows|, i requires 0 <= i < |rows| => l.loss(s, rows[i]))
  }

  /** The losses, each at the parameters in force when the row was seen. */
  function Losses<S, G, R>(l: Learner<S, G, R>, s: S, groups: seq<seq<R>>): seq<real> {
    if groups == [] then []
    else GroupLosses(l, s, groups[0])
         + Losses(l, l.step(s, Gradient(l, s, groups[0])), groups[1..])
  }

  lemma DivUnique(a: int, d: int, q: int, r: int)
    requires d > 0 && a == q * d + r && 0 <= r < d
    ensures a / d == q && a % d == r
  {
    var x := a / d - q;
    assert a == (a / d) * d + a % d;
    assert x * d == r - a % d;
    assert x >= 1 ==> x * d >= d;
    assert x <= -1 ==> x * d <= -d;
  }

  lemma DivStep(i: nat, d: nat)
    requires d > 0
    ensures (i + d) / d == i / d + 1
    ensures (i + 1) % d == if i % d + 1 == d then 0 else i % d + 1
  {
    var q, r := i / d, i % d;
    assert (q + 1) * d == q * d + d;
    DivUnique(i + d, d, q + 1, r);
    if r + 1 == d { DivUnique(i + 1, d, q + 1, 0); } else { DivUnique(i + 1, d, q, r + 1); }
  }

  /** Full groups, the last possibly shorter, none empty. */
  predicate FullGroups<R>(groups: seq<seq<R>>, size: nat) {
    forall i | 0 <= i < |groups| :: 0 < |groups[i]| <= size && (i < |groups| - 1 ==> |groups[i]| == size)
  }

  /** Each row is in exactly one group, in order. */
  lemma {:induction false} GroupsPartition<R>(rows: seq<R>, size: nat)
    requires size > 0
    ensures Flat(Groups(rows, size)) == rows && FullGroups(Groups(rows, size), size)
    decreases |rows|
  {
    if |rows| > size {
      var rest := rows[size..];
      GroupsPartition(rest, size);
      assert rows == rows[..size] + rest;
    } else if rows != [] {
      assert Flat([rows]) == rows + Flat([rows][1..]);
    }
  }

  /** Nothing else splits the rows into full groups. */
  lemma {:induction false} GroupsUnique<R>(groups: seq<seq<R>>, size: nat)
    requires size > 0 && FullGroups(groups, size)
    ensures groups == Groups(Flat(groups), size)
  {
    if groups != [] {
      var rest := groups[1..];
      forall i | 0 <= i < |rest| ensures rest[i] == groups[i + 1] {}
      GroupsUnique(rest, size);
      var rows := Flat(groups);
      assert groups == [groups[0]] + rest;
      if rest == [] {
        assert rows == groups[0];
      } else {
        assert rest[0] != [] && Flat(rest) == rest[0] + Flat(rest[1..]);
        assert |groups[0]| == size && rows[..size] == groups[0] && rows[size..] == Flat(rest);
      }
    }
  }

  /** There are ceil(rows / size) groups. */
  lemma {:induction false} GroupsCount<R>(rows: seq<R>, size: nat)
    requires size > 0
    ensures |Groups(rows, size)| == (|rows| + size - 1) / size
    decreases |rows|
  {
    if |rows| > size {
      GroupsCount(rows[size..], size);
      DivStep(|rows| - 1, size);
    } else if rows != [] {
      DivUnique(|rows| + size - 1, size, 1, |rows| - 1);
    } else {
      DivUnique(size - 1, size, 0, size - 1);
    }
  }

  function Sum(xs: seq<real>): real { if xs == [] then 0.0 else Sum(xs[..|xs| - 1]) + xs[|xs| - 1] }

  function Mean(xs: seq<real>): real { if xs == [] then 0.0 else Sum(xs) / |xs| as real }

  /** The sum adds up, and the mean is what, taken once for each value, adds up to the sum. */
  lemma {:induction false} MeanIs(xs: seq<real>, ys: seq<real>)
    ensures Sum([]) == 0.0 && (forall x :: Sum([x]) == x) && Sum(xs + ys) == Sum(xs) + Sum(ys)
    ensures Mean(xs) * |xs| as real == Sum(xs) && (xs == [] ==> Mean(xs) == 0.0)
  {
    forall x: real ensures Sum([x]) == x { assert [x][..0] == []; }
    if ys == [] {
      assert xs + ys == xs;
    } else {
      MeanIs(xs, ys[..|ys| - 1]);
      assert (xs + ys)[..|xs + ys| - 1] == xs + ys[..|ys| - 1];
    }
  }

  /** The optimizer: parameters, gradients added up by `backward`, and the steps taken. */
  class Optimizer<S, G> {
    var params: S
    var pending: G
    var steps: nat

    constructor (params: S, zero: G)
      ensures this.params == params && pending == zero && steps == 0
    {
      this.params, pending, steps := params, zero, 0;
    }

    method Backward<R>(l: Learner<S, G, R>, row: R)
      modifies this`pending
      ensures pending == l.add(old(pending), l.gradient(params, row))
    {
      pending := l.add(pending, l.gradient(params, row));
    }

    method Step<R>(l: Learner<S, G, R>)
      modifies this
      ensures params == l.step(old(params), old(pending)) && pending == l.zero && steps == old(steps) + 1
    {
      params, pending, steps := l.step(params, pending), l.zero, steps + 1;
    }
  }

  lemma {:induction false} TrainedSnoc<S, G, R>(l: Learner<S, G, R>, s: S, groups: seq<seq<R>>, g: seq<R>)
    ensures Trained(l, s, groups + [g]) ==
            l.step(Trained(l, s, groups), Gradient(l, Trained(l, s, groups), g))
    ensures Losses(l, s, groups + [g]) ==
            Losses(l, s, groups) + GroupLosses(l, Trained(l, s, groups), g)
  {
    if groups == [] {
      assert groups + [g] == [g] && [g][1..] == [];
    } else {
      var next := l.step(s, Gradient(l, s, groups[0]));
      assert (groups + [g])[0] == groups[0] && (groups + [g])[1..] == groups[1..] + [g];
      TrainedSnoc(l, next, groups[1..], g);
    }
  }

  /** The state between two rows: `groups` have been stepped on, `open` is being accumulated. */
  ghost predicate Between<S, G, R>(l: Learner<S, G, R>, s: S, o: Optimizer<S, G>, groups: seq<seq<R>>, open: seq<R>,
                                   size: nat, seen: seq<R>, recorded: seq<real>)
    reads o
  {
    && (forall i | 0 <= i < |groups| :: |groups[i]| == size)
    && Flat(groups) + open == seen
    && o.params == Trained(l, s, groups) && o.pending == Gradient(l, o.params, open) && o.steps == |groups|
    && recorded == Losses(l, s, groups) + GroupLosses(l, o.params, open)
  }

  /** One row through the loop: its loss is recorded and its gradient added. */
  method TrainRow<S, G, R>(l: Learner<S, G, R>, o: Optimizer<S, G>, row: R, recorded: seq<real>,
                           ghost s: S, ghost groups: seq<seq<R>>, ghost open: seq<R>, ghost size: nat, ghost seen: seq<R>)
    returns (now: seq<real>)
    requires Between(l, s, o, groups, open, size, seen, recorded)
    modifies o`pending
    ensures Between(l, s, o, groups, open + [row], size, seen + [row], now)
  {
    now := recorded + [l.loss(o.params, row)];
    o.Backward(l, row);
    assert (open + [row])[..|open|] == open;
    assert Flat(groups) + (open + [row]) == seen + [row];
  }

  /** An optimizer step closes the group. */
  method CloseGroup<S, G, R>(l: Learner<S, G, R>, o: Optimizer<S, G>, ghost s: S, ghost groups: seq<seq<R>>,
                             ghost open: seq<R>, ghost size: nat, ghost seen: seq<R>, ghost recorded: seq<real>)
    requires Between(l, s, o, groups, open, size, seen, recorded)
    modifies o
    ensures o.params == Trained(l, s, groups + [open]) && o.pending == l.zero && o.steps == |groups| + 1
    ensures Flat(groups + [open]) == seen && recorded == Losses(l, s, groups + [open])
  {
    TrainedSnoc(l, s, groups, open);
    FlatSnoc(groups, open);
    o.Step(l);
  }

  /** The loop of the epoch over all rows; the last group may still be open. */
  method TrainRows<S, G, R>(l: Learner<S, G, R>, o: Optimizer<S, G>, rows: seq<R>, accumulation: nat)
    returns (recorded: seq<real>, ghost groups: seq<seq<R>>, ghost open: seq<R>)
    requires accumulation > 0 && o.pending == l.zero && o.steps == 0
    modifies o
    ensures Between(l, old(o.params), o, groups, open, accumulation, rows, recorded)
    ensures |open| == |rows| % accumulation
  {
    recorded, groups, open := [], [], [];
    for index := 0 to |rows|
      invariant Between(l, old(o.params), o, groups, open, accumulation, rows[..index], recorded)
      invariant |open| == index % accumulation
    {
      DivStep(index, accumulation);
      assert rows[..index + 1] == rows[..index] + [rows[index]];
      recorded := TrainRow(l, o, rows[index], recorded, old(o.params), groups, open, accumulation, rows[..index]);
      open := open + [rows[index]];
      if (index + 1) % accumulation == 0 {
        CloseGroup(l, o, old(o.params), groups, open, accumulation, rows[..index + 1], recorded);
        groups, open := groups + [open], [];
      }
    }
    assert rows[..|rows|] == rows;
  }

  lemma {:induction false} LossesLength<S, G, R>(l: Learner<S, G, R>, s: S, groups: seq<seq<R>>)
    ensures |Losses(l, s, groups)| == |Flat(groups)|
  {
    if groups != [] { LossesLength(l, l.step(s, Gradient(l, s, groups[0])), groups[1..]); }
  }

  /** The closed groups, with the open one if it has rows, are the groups of the rows. */
  lemma EpochGroups<R>(rows: seq<R>, groups: seq<seq<R>>, open: seq<R>, size: nat)
    requires size > 0 && Flat(groups) + open == rows && |open| < size
    requires forall i | 0 <= i < |groups| :: |groups[i]| == size
    ensures Groups(rows, size) == if open == [] then groups else groups + [open]
    ensures |Groups(rows, size)| == (|rows| + size - 1) / size
  {
    FlatSnoc(groups, open);
    var all := if open == [] then groups else groups + [open];
    assert Flat(all) == rows;
    GroupsUnique(all, size);
    GroupsCount(rows, size);
  }

  /** The epoch: one step per group of rows on the gradients of just those rows, and the mean of
      the recorded losses. */
  method RunEpoch<S, G, R>(l: Learner<S, G, R>, s: S, rows: seq<R>, accumulation: nat)
    returns (params: S, mean: real, steps: nat)
    requires accumulation > 0
    ensures params == Trained(l, s, Groups(rows, accumulation))
    ensures steps == |Groups(rows, accumulation)|
    ensures |Losses(l, s, Groups(rows, accumulation))| == |rows|
    ensures mean == Mean(Losses(l, s, Groups(rows, accumulation)))
  {
    var o := new Optimizer<S, G>(s, l.zero);
    var recorded;
    ghost var groups, open;
    recorded, groups, open := TrainRows(l, o, rows, accumulation);
    EpochGroups(rows, groups, open, accumulation);
    var left := |rows| % accumulation;
    if rows != [] && left != 0 {
      CloseGroup(l, o, s, groups, open, accumulation, rows, recorded);
      groups := groups + [open];
    } else {
      assert open == [];
      assert recorded + [] == recorded;
    }
    assert recorded == Losses(l, s, groups);
    LossesLength(l, s, groups);
    GroupsPartition(rows, accumulation);
    params, steps := o.params, o.steps;
    mean := if rows == [] then 0.0 else Mean(recorded);
  }
}
