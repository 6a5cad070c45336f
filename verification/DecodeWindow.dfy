/** A decode window over the shared cache: each decoder sees exactly its own token history. */
module DecodeWindow {
  import opened KvCache
  import opened Beam
  import opened Modular

  const KQ_MASK_PAD: nat := 64

  /** `GGML_PAD`: rounds up to a multiple; the source's bit trick for powers of two. */
  function PadTo(x: nat, m: nat): nat
    requires m > 0
  {
    ((x + m - 1) / m) * m
  }

  predicate Used(cells: seq<Cell>, i: int) {
    0 <= i < |cells| && cells[i].pos >= 0 && cells[i].ids != {}
  }

  /** The attended part of the cache is a multiple of the padding, or all of it, and its last
      `pad` cells are needed, unless there are no others. */
  ghost predicate ViewFits(cells: seq<Cell>, n: nat, pad: nat)
    requires pad > 0
  {
    && 0 < n <= |cells| && (n == |cells| || n % pad == 0)
    && (n > pad ==> exists i :: n <= i + pad && Used(cells, i))
  }

  /** The least multiple of `m` that is not below `x`. */
  lemma PadToCovers(x: nat, m: nat)
    requires m > 0
    ensures x <= PadTo(x, m) < x + m && PadTo(x, m) % m == 0
  {
    var q := (x + m - 1) / m;
    assert x + m - 1 == q * m + (x + m - 1) % m;
    MultipleMod(q, m);
  }

  // ---------------------------------------------------------------- histories

  /** Decoder `j` holds exactly one cell per position of `hist`, each storing that token's
      keys and values, and no other cell. */
  ghost predicate Has(cells: seq<Cell>, content: seq<int>, j: int, hist: seq<int>) {
    && |cells| == |content|
    && (forall i :: 0 <= i < |cells| && j in cells[i].ids ==>
          0 <= cells[i].pos < |hist| && content[i] == hist[cells[i].pos])
    && (forall p :: 0 <= p < |hist| ==> At(cells, j, p))
    && (forall i, k :: 0 <= i < k < |cells| && j in cells[i].ids && j in cells[k].ids ==> cells[i].pos != cells[k].pos)
  }

  /** Somewhere `n` free cells follow one another. */
  ghost predicate HasRun(cells: seq<Cell>, n: nat) {
    exists h :: 0 <= h <= |cells| && FreeRun(cells, h, n)
  }

  /** Exactly one sequence, below `n`. */
  predicate OneBelow(ids: seq<int>, n: nat) {
    |ids| == 1 && 0 <= ids[0] < n
  }

  /** Only decoders below `n` hold cells. */
  predicate HeldBy(cells: seq<Cell>, n: nat) {
    forall i, k :: 0 <= i < |cells| && k in cells[i].ids ==> 0 <= k < n
  }

  ghost predicate At(cells: seq<Cell>, j: int, p: int) {
    exists i :: 0 <= i < |cells| && j in cells[i].ids && cells[i].pos == p
  }

  /** What the model run writes: the keys and values of the batch, at the run's cells. */
  function Written(content: seq<int>, h: nat, toks: seq<int>): seq<int>
    requires h + |toks| <= |content|
  {
    content[..h] + toks + content[h + |toks|..]
  }

  lemma WrittenAt(content: seq<int>, h: nat, toks: seq<int>, i: nat)
    requires h + |toks| <= |content| && i < |content|
    ensures |Written(content, h, toks)| == |content|
    ensures Written(content, h, toks)[i] == if h <= i < h + |toks| then toks[i - h] else content[i]
  {
  }

  /** A run that is free holds nothing of any decoder. */
  lemma FreeHoldsNothing(cells: seq<Cell>, h: nat, n: nat, i: nat)
    requires CellsOk(cells) && FreeRun(cells, h, n) && h <= i < h + n
    ensures cells[i].ids == {}
  {
    assert CellOk(cells[i]);
  }

  /** A decoder the batch does not mention keeps its history. */
  lemma OthersKeep(cells: seq<Cell>, content: seq<int>, h: nat, b: Batch, j: int, hist: seq<int>)
    requires CellsOk(cells) && b.Ok() && FreeRun(cells, h, |b.pos|) && Has(cells, content, j, hist)
    requires forall q :: 0 <= q < |b.ids| ==> j !in b.ids[q]
    ensures Has(Enter(cells, h, b), Written(content, h, b.tokens), j, hist)
  {
    var next := Enter(cells, h, b);
    forall i | 0 <= i < |cells| ensures j in next[i].ids <==> j in cells[i].ids
      ensures j in cells[i].ids ==> next[i] == cells[i] && Written(content, h, b.tokens)[i] == content[i]
    {
      WrittenAt(content, h, b.tokens, i);
      if h <= i < h + |b.pos| {
        FreeHoldsNothing(cells, h, |b.pos|, i);
        assert j !in IdSet(b.ids[i - h]);
      }
    }
    forall p | 0 <= p < |hist| ensures At(next, j, p) {
      assert At(cells, j, p);
    }
  }

  /** A decoder with one new token in the batch, at the next position, has it appended. */
  lemma OneAppends(cells: seq<Cell>, content: seq<int>, h: nat, b: Batch, q: nat, j: int, hist: seq<int>)
    requires CellsOk(cells) && b.Ok() && FreeRun(cells, h, |b.pos|) && Has(cells, content, j, hist)
    requires q < |b.ids| && b.ids[q] == [j] && b.pos[q] == |hist|
    requires forall r :: 0 <= r < |b.ids| && r != q ==> j !in b.ids[r]
    ensures Has(Enter(cells, h, b), Written(content, h, b.tokens), j, hist + [b.tokens[q]])
  {
    hide Enter, Written, IdSet, At;
    var next, written := Enter(cells, h, b), Written(content, h, b.tokens);
    AppendedCell(cells, content, h, b, q, j, hist, h + q);
    forall i | 0 <= i < |cells|
      ensures j in next[i].ids <==> j in cells[i].ids || i == h + q
      ensures j in cells[i].ids ==> i != h + q && next[i] == cells[i] && written[i] == content[i]
    {
      AppendedCell(cells, content, h, b, q, j, hist, i);
    }
    HasGrows(cells, content, next, written, j, hist, b.tokens[q], h + q);
  }

  lemma AppendedCell(cells: seq<Cell>, content: seq<int>, h: nat, b: Batch, q: nat, j: int, hist: seq<int>, i: nat)
    requires CellsOk(cells) && b.Ok() && FreeRun(cells, h, |b.pos|) && |content| == |cells|
    requires q < |b.ids| && b.ids[q] == [j] && b.pos[q] == |hist| && i < |cells|
    requires forall r :: 0 <= r < |b.ids| && r != q ==> j !in b.ids[r]
    ensures h + q < |cells| == |Enter(cells, h, b)| == |Written(content, h, b.tokens)|
    ensures j in Enter(cells, h, b)[i].ids <==> j in cells[i].ids || i == h + q
    ensures j in cells[i].ids ==>
      i != h + q && Enter(cells, h, b)[i] == cells[i] && Written(content, h, b.tokens)[i] == content[i]
    ensures i == h + q ==> Enter(cells, h, b)[i].pos == |hist| && Written(content, h, b.tokens)[i] == b.tokens[q]
  {
    WrittenAt(content, h, b.tokens, i);
    if h <= i < h + |b.pos| {
      FreeHoldsNothing(cells, h, |b.pos|, i);
      assert IdSet([j]) == {j} by { assert [j][0] in IdSet([j]); }
      assert i != h + q ==> j !in IdSet(b.ids[i - h]);
    }
  }

  /** One more cell, at the next position, makes the history one token longer. */
  lemma HasGrows(cells: seq<Cell>, content: seq<int>, next: seq<Cell>, written: seq<int>, j: int, hist: seq<int>,
                 x: int, at: nat)
    requires Has(cells, content, j, hist) && |cells| == |next| == |written| && at < |cells|
    requires forall i :: 0 <= i < |cells| ==> (j in next[i].ids <==> j in cells[i].ids || i == at)
    requires forall i :: 0 <= i < |cells| && j in cells[i].ids ==>
      i != at && next[i] == cells[i] && written[i] == content[i]
    requires next[at].pos == |hist| && written[at] == x
    ensures Has(next, written, j, hist + [x])
  {
    var longer := hist + [x];
    forall p | 0 <= p < |longer| ensures At(next, j, p) {
      if p < |hist| {
        assert At(cells, j, p);
      } else {
        assert j in next[at].ids && next[at].pos == p;
      }
    }
  }

  lemma HeldBelow(cells: seq<Cell>, content: seq<int>, j: int, hist: seq<int>, c: nat)
    requires Has(cells, content, j, hist) && c < |cells| && j in cells[c].ids
    ensures 0 <= cells[c].pos < |hist|
  {
  }

  /** The prompt, entered into an empty cache for one sequence. */
  lemma PromptEnters(cells: seq<Cell>, content: seq<int>, h: nat, b: Batch, j: int)
    requires b.Ok() && FreeRun(cells, h, |b.pos|) && |content| == |cells|
    requires forall i :: 0 <= i < |cells| ==> cells[i] == EMPTY
    requires forall q :: 0 <= q < |b.pos| ==> b.pos[q] == q && b.ids[q] == [j]
    ensures Has(Enter(cells, h, b), Written(content, h, b.tokens), j, b.tokens)
    ensures forall i, k :: 0 <= i < |cells| && k in Enter(cells, h, b)[i].ids ==> k == j
  {
    var next := Enter(cells, h, b);
    assert IdSet([j]) == {j} by { assert [j][0] in IdSet([j]); }
    forall i | 0 <= i < |cells|
      ensures next[i] == if h <= i < h + |b.pos| then Cell(i - h, {j}) else EMPTY
      ensures h <= i < h + |b.pos| ==> Written(content, h, b.tokens)[i] == b.tokens[i - h]
    {
      WrittenAt(content, h, b.tokens, i);
    }
    forall p | 0 <= p < |b.tokens| ensures At(next, j, p) {
      assert j in next[h + p].ids && next[h + p].pos == p;
    }
  }

  /** Copying one sequence to a decoder that holds nothing gives it the same history. */
  lemma CopyGivesHistory(cells: seq<Cell>, content: seq<int>, src: int, dst: int, hist: seq<int>, next: seq<Cell>)
    requires CellsOk(cells) && Has(cells, content, src, hist) && src != dst && |next| == |cells|
    requires forall i :: 0 <= i < |cells| ==> dst !in cells[i].ids
    requires forall i :: 0 <= i < |cells| ==> next[i] == CpCell(cells[i], src, dst, -1, -1)
    ensures Has(next, content, dst, hist)
  {
    forall i | 0 <= i < |cells|
      ensures dst in next[i].ids <==> src in cells[i].ids
      ensures next[i].pos == cells[i].pos
    {
      CpCellAll(cells[i], src, dst);
    }
    forall p | 0 <= p < |hist| ensures At(next, dst, p) {
      assert At(cells, src, p);
    }
  }

  lemma CopyKeepsOthers(cells: seq<Cell>, content: seq<int>, src: int, dst: int, j: int, hist: seq<int>,
                        next: seq<Cell>)
    requires CellsOk(cells) && Has(cells, content, j, hist) && j != dst && |next| == |cells|
    requires forall i :: 0 <= i < |cells| ==> next[i] == CpCell(cells[i], src, dst, -1, -1)
    ensures Has(next, content, j, hist)
  {
    forall i | 0 <= i < |cells|
      ensures j in next[i].ids <==> j in cells[i].ids
      ensures next[i].pos == cells[i].pos
    {
      CpCellAll(cells[i], src, dst);
    }
    forall p | 0 <= p < |hist| ensures At(next, j, p) {
      assert At(cells, j, p);
    }
  }

  /** The beam update hands each decoder the history of the decoder it continues. */
  lemma BeamMovesHistory(cells: seq<Cell>, content: seq<int>, active: seq<bool>, choice: seq<nat>, j: nat,
                         hist: seq<int>, next: seq<Cell>)
    requires CellsOk(cells) && OnlyDecoders(cells) && ChoiceOk(active, choice) && j < MAX_DECODERS && |next| == |cells|
    requires forall i :: 0 <= i < |cells| ==> next[i] == BeamCell(cells[i], active, choice)
    requires Has(cells, content, if j < |active| && active[j] then choice[j] else j, hist)
    ensures Has(next, content, j, hist)
  {
    var src := if j < |active| && active[j] then choice[j] else j;
    forall i | 0 <= i < |cells|
      ensures j in next[i].ids <==> src in cells[i].ids
      ensures j in next[i].ids ==> next[i].pos == cells[i].pos
    {
      ShuffleIsClean(cells[i], active, choice);
    }
    forall p | 0 <= p < |hist| ensures At(next, j, p) {
      assert At(cells, src, p);
      var i :| 0 <= i < |cells| && src in cells[i].ids && cells[i].pos == p;
      assert j in next[i].ids;
    }
  }

  /** The token sequences once the active decoders have taken their candidates. */
  function Continue(active: seq<bool>, was: seq<seq<int>>, chosen: seq<Candidate>): (next: seq<seq<int>>)
    requires |was| == |active| == |chosen|
    ensures |next| == |was|
  {
    seq(|was|, j requires 0 <= j < |was| && |was| == |active| == |chosen| =>
      if active[j] then chosen[j].tokens else was[j])
  }

  /** Decoder `j` continues a decoder that is still going. */
  predicate Picks(active: seq<bool>, choice: seq<nat>, j: nat)
    requires j < |choice|
  {
    choice[j] < |active| && active[choice[j]]
  }

  lemma BeamIsClean(was: seq<Cell>, active: seq<bool>, choice: seq<nat>, next: seq<Cell>)
    requires CellsOk(was) && OnlyDecoders(was) && ChoiceOk(active, choice)
    requires HeldBy(was, |active|)
    requires |next| == |was| && forall c :: 0 <= c < |was| ==> next[c] == BeamCell(was[c], active, choice)
    ensures CellsOk(next) && OnlyDecoders(next) && HeldBy(next, |active|)
  {
    hide BeamCell;
    forall c | 0 <= c < |was|
      ensures CellOk(next[c]) && SmallIds(next[c])
      ensures forall k :: k in next[c].ids ==> 0 <= k < |active|
    {
      ShuffleIsClean(was[c], active, choice);
    }
  }

  /** After the beam update the cells are clean, and each active decoder's cached history is
      that of its new tokens but the last. */
  lemma BeamHistories(was: seq<Cell>, content: seq<int>, active: seq<bool>, choice: seq<nat>, prompt: seq<int>,
                      had: seq<seq<int>>, tokens: seq<seq<int>>, i: nat, next: seq<Cell>)
    requires CellsOk(was) && OnlyDecoders(was) && HeldBy(was, |active|) && ChoiceOk(active, choice)
    requires |active| == |had| == |tokens|
    requires |next| == |was| && forall c :: 0 <= c < |was| ==> next[c] == BeamCell(was[c], active, choice)
    requires forall j :: 0 <= j < |active| && active[j] ==> |had[j]| == i && Has(was, content, j, prompt + had[j])
    requires forall j :: 0 <= j < |active| && active[j] ==>
      Picks(active, choice, j) && tokens[j] != [] && tokens[j][..|tokens[j]| - 1] == had[choice[j]]
    ensures CellsOk(next) && OnlyDecoders(next) && HeldBy(next, |active|)
    ensures forall j :: 0 <= j < |active| && active[j] ==>
      |tokens[j]| == i + 1 && Has(next, content, j, prompt + tokens[j][..i])
  {
    hide BeamCell, Has, CellsOk, OnlyDecoders, HeldBy;
    BeamIsClean(was, active, choice, next);
    forall j | 0 <= j < |active| && active[j]
      ensures |tokens[j]| == i + 1 && Has(next, content, j, prompt + tokens[j][..i])
    {
      BeamMovesHistory(was, content, active, choice, j, prompt + had[choice[j]], next);
    }
  }

  // ------------------------------------------------------------- room for one

  /** A decoder holds no two cells at one position, so no more cells than it has tokens. */
  lemma {:induction false} HeldAtMost(cells: seq<Cell>, content: seq<int>, j: int, hist: seq<int>, m: nat)
    requires Has(cells, content, j, hist) && m <= |cells| && forall i :: 0 <= i < m ==> j in cells[i].ids
    ensures |set i | 0 <= i < m :: cells[i].pos| == m
  {
    hide Has;
    var all := set i | 0 <= i < m :: cells[i].pos;
    if m > 0 {
      HeldAtMost(cells, content, j, hist, m - 1);
      var rest := set i | 0 <= i < m - 1 :: cells[i].pos;
      LastIsNew(cells, content, j, hist, m - 1);
      assert all == rest + {cells[m - 1].pos};
    }
  }

  lemma LastIsNew(cells: seq<Cell>, content: seq<int>, j: int, hist: seq<int>, m: nat)
    requires Has(cells, content, j, hist) && m < |cells| && forall i :: 0 <= i <= m ==> j in cells[i].ids
    ensures cells[m].pos !in set i | 0 <= i < m :: cells[i].pos
  {
  }

  lemma {:induction false} Below(s: set<int>, n: nat)
    requires forall x :: x in s ==> 0 <= x < n
    ensures |s| <= n
  {
    if n == 0 {
      assert forall x :: x !in s;
    } else {
      Below(s - {n - 1}, n - 1);
    }
  }

  lemma AllHeld(cells: seq<Cell>, content: seq<int>, j: int, hist: seq<int>)
    requires Has(cells, content, j, hist) && forall i :: 0 <= i < |cells| ==> j in cells[i].ids
    ensures |cells| <= |hist|
  {
    var s := set i | 0 <= i < |cells| :: cells[i].pos;
    HeldAtMost(cells, content, j, hist, |cells|);
    Below(s, |hist|);
  }

  /** A single decoder finds a free cell in any cache of more cells than it has tokens. */
  lemma OneFinds(cells: seq<Cell>, content: seq<int>, active: seq<bool>, hist: seq<int>)
    requires CellsOk(cells) && HeldBy(cells, 1) && |active| == 1 && active[0]
    requires Has(cells, content, 0, hist) && |hist| < |cells|
    ensures HasRun(cells, CountActive(active, |active|))
  {
    hide Has;
    assert CountActive(active, 1) == 1;
    if i :| 0 <= i < |cells| && 0 !in cells[i].ids {
      assert CellOk(cells[i]);
      assert forall k :: k in cells[i].ids ==> k == 0;
      assert cells[i].ids == {};
      assert FreeRun(cells, i, 1);
    } else {
      AllHeld(cells, content, 0, hist);
      assert false;
    }
  }

  // ------------------------------------------------------------ beam candidates

  /** A candidate continues decoder `src` by one token. */
  datatype Candidate = Candidate(src: nat, tokens: seq<int>)

  /** From `k` on, the first candidate that differs from candidate `c`; before any token has
      been sampled nothing is skipped. */
  function SkipEqual(cands: seq<Candidate>, c: nat, k: nat, i: nat): (next: nat)
    requires c < k <= |cands|
    ensures k <= next <= |cands|
    decreases |cands| - k
  {
    if k < |cands| && cands[k].tokens == cands[c].tokens && i > 0 then SkipEqual(cands, c, k + 1, i) else k
  }

  /** The candidate of the `m`-th active decoder; the walk starts over at the end. */
  function Walk(cands: seq<Candidate>, i: nat, m: nat): (c: nat)
    requires cands != []
    ensures c < |cands|
  {
    if m == 0 then 0 else
    var c := Walk(cands, i, m - 1);
    var next := SkipEqual(cands, c, c + 1, i);
    if next >= |cands| then 0 else next
  }

  lemma {:induction false} SkipEqualStops(cands: seq<Candidate>, c: nat, k: nat, i: nat)
    requires c < k <= |cands|
    ensures var next := SkipEqual(cands, c, k, i);
            && (forall d :: k <= d < next ==> cands[d].tokens == cands[c].tokens)
            && (next < |cands| && i > 0 ==> cands[next].tokens != cands[c].tokens)
            && (i == 0 ==> next == k)
    decreases |cands| - k
  {
    if k < |cands| && cands[k].tokens == cands[c].tokens && i > 0 {
      SkipEqualStops(cands, c, k + 1, i);
    }
  }

  /** Until the walk starts over, no two neighbouring decoders get the same tokens, and only
      duplicates are passed over. */
  lemma WalkSkipsDuplicates(cands: seq<Candidate>, i: nat, m: nat)
    requires cands != [] && i > 0
    ensures var c, next := Walk(cands, i, m), Walk(cands, i, m + 1);
            next == 0 || (c < next && cands[next].tokens != cands[c].tokens
                          && forall d :: c < d < next ==> cands[d].tokens == cands[c].tokens)
  {
    SkipEqualStops(cands, Walk(cands, i, m), Walk(cands, i, m) + 1, i);
  }

  /** Active decoder `k` is the next one after active decoder `j`. */
  predicate NextActive(active: seq<bool>, j: nat, k: nat) {
    j < k < |active| && active[j] && active[k] && forall m :: j < m < k ==> !active[m]
  }

  /** Candidate `d` is the first one after `c` that has other tokens, or there is none and `d` is
      the first candidate of all. */
  predicate NextOther(cands: seq<Candidate>, c: nat, d: nat) {
    && c < |cands| && d < |cands|
    && if c < d then cands[d].tokens != cands[c].tokens && forall e :: c < e < d ==> cands[e].tokens == cands[c].tokens
       else d == 0 && forall e :: c < e < |cands| ==> cands[e].tokens == cands[c].tokens
  }

  /** How the candidates are handed out: the first active decoder gets the first candidate, and
      each later one the next different one after that of the active decoder before it, or the
      first again. While no token has been sampled nothing is skipped, and the active decoder
      with `m` active ones before it gets candidate `m`, counted round and round. */
  ghost predicate HandedOut(cands: seq<Candidate>, active: seq<bool>, i: nat, taken: seq<nat>) {
    && |taken| == |active| && (forall j :: 0 <= j < |taken| ==> taken[j] < |cands|)
    && (forall j :: 0 <= j < |active| && active[j] && (forall m :: 0 <= m < j ==> !active[m]) ==> taken[j] == 0)
    && (i > 0 ==> forall j: nat, k: nat :: NextActive(active, j, k) && j < |taken| && k < |taken| ==>
          NextOther(cands, taken[j], taken[k]))
    && (i == 0 ==> forall j :: 0 <= j < |active| && active[j] ==>
          cands != [] && taken[j] == |set m | 0 <= m < j && active[m]| % |cands|)
  }

  /** The candidates chosen are those with the numbers taken. */
  predicate Taken(cands: seq<Candidate>, taken: seq<nat>, chosen: seq<Candidate>) {
    |chosen| == |taken| && forall j :: 0 <= j < |taken| ==> taken[j] < |cands| && chosen[j] == cands[taken[j]]
  }

  lemma {:induction false} NoneActive(active: seq<bool>, j: nat)
    requires j <= |active| && forall m :: 0 <= m < j ==> !active[m]
    ensures CountActive(active, j) == 0
  {
    if j > 0 {
      NoneActive(active, j - 1);
    }
  }

  lemma {:induction false} NextIsOneMore(active: seq<bool>, j: nat, k: nat)
    requires j < k <= |active| && active[j] && forall m :: j < m < k ==> !active[m]
    ensures CountActive(active, k) == CountActive(active, j) + 1
  {
    if j + 1 < k {
      NextIsOneMore(active, j, k - 1);
    }
  }

  lemma WalkNext(cands: seq<Candidate>, i: nat, m: nat)
    requires cands != [] && i > 0
    ensures NextOther(cands, Walk(cands, i, m), Walk(cands, i, m + 1))
  {
    hide SkipEqual;
    var c := Walk(cands, i, m);
    SkipEqualStops(cands, c, c + 1, i);
  }

  lemma WalkTurns(cands: seq<Candidate>, m: nat)
    requires cands != []
    ensures Walk(cands, 0, 0) == 0
    ensures Walk(cands, 0, m + 1) == var c := Walk(cands, 0, m); if c + 1 < |cands| then c + 1 else 0
  {
    hide SkipEqual;
    var c := Walk(cands, 0, m);
    SkipEqualStops(cands, c, c + 1, 0);
  }

  lemma {:induction false} WalkAround(cands: seq<Candidate>, m: nat)
    requires cands != []
    ensures Walk(cands, 0, m) == m % |cands|
  {
    hide Walk;
    if m == 0 {
      WalkTurns(cands, 0);
    } else {
      WalkAround(cands, m - 1);
      WalkTurns(cands, m - 1);
      OneRound(m - 1, |cands|);
    }
  }

  lemma OneRound(m: nat, n: nat)
    requires n > 0
    ensures (m + 1) % n == if m % n + 1 < n then m % n + 1 else 0
  {
    var q, r := m / n, m % n;
    assert m == q * n + r;
    if r + 1 < n {
      DivModUnique(m + 1, n, q, r + 1);
    } else {
      assert q * n + n == (q + 1) * n;
      DivModUnique(m + 1, n, q + 1, 0);
    }
  }

  lemma {:induction false} CountIsCard(active: seq<bool>, j: nat)
    requires j <= |active|
    ensures CountActive(active, j) == |set m | 0 <= m < j && active[m]|
  {
    if j > 0 {
      CountIsCard(active, j - 1);
      var before, now := set m | 0 <= m < j - 1 && active[m], set m | 0 <= m < j && active[m];
      assert now == if active[j - 1] then before + {j - 1} else before;
    }
  }

  lemma WalkHandsOut(cands: seq<Candidate>, active: seq<bool>, i: nat, taken: seq<nat>)
    requires cands != [] && |taken| == |active| && forall j :: 0 <= j < |taken| ==> taken[j] < |cands|
    requires forall j :: 0 <= j < |active| && active[j] ==> taken[j] == Walk(cands, i, CountActive(active, j))
    ensures HandedOut(cands, active, i, taken)
  {
    hide CountActive, NextOther, SkipEqual;
    forall j | 0 <= j < |active| && active[j] && (forall m :: 0 <= m < j ==> !active[m]) ensures taken[j] == 0 {
      NoneActive(active, j);
    }
    if i > 0 {
      forall j: nat, k: nat | NextActive(active, j, k) && j < |taken| && k < |taken|
        ensures NextOther(cands, taken[j], taken[k])
      {
        NextIsOneMore(active, j, k);
        WalkNext(cands, i, CountActive(active, j));
      }
    } else {
      forall j | 0 <= j < |active| && active[j] ensures taken[j] == |set m | 0 <= m < j && active[m]| % |cands| {
        CountIsCard(active, j);
        WalkAround(cands, CountActive(active, j));
      }
    }
  }

  function CountActive(active: seq<bool>, j: nat): nat
    requires j <= |active|
  {
    if j == 0 then 0 else CountActive(active, j - 1) + (if active[j - 1] then 1 else 0)
  }

  /** Hands the sorted candidates to the active decoders. */
  method TakeCandidates(cands: seq<Candidate>, active: seq<bool>, i: nat) returns (taken: seq<nat>)
    requires cands != []
    ensures |taken| == |active| && forall j :: 0 <= j < |taken| ==> taken[j] < |cands|
    ensures forall j :: 0 <= j < |active| && active[j] ==> taken[j] == Walk(cands, i, CountActive(active, j))
    ensures HandedOut(cands, active, i, taken)
  {
    hide SkipEqual, HandedOut;
    taken := [];
    var cur := 0;
    for j := 0 to |active|
      invariant |taken| == j && 0 <= cur <= |cands|
      invariant forall k :: 0 <= k < j ==> taken[k] < |cands|
      invariant forall k :: 0 <= k < j && active[k] ==> taken[k] == Walk(cands, i, CountActive(active, k))
      invariant (if cur >= |cands| then 0 else cur) == Walk(cands, i, CountActive(active, j))
    {
      if !active[j] {
        taken := taken + [0];
        continue;
      }
      if cur >= |cands| {
        cur := 0;
      }
      taken := taken + [cur];
      cur := PassDuplicates(cands, cur, i);
    }
    WalkHandsOut(cands, active, i, taken);
  }

  method PassDuplicates(cands: seq<Candidate>, c: nat, i: nat) returns (cur: nat)
    requires c < |cands|
    ensures cur == SkipEqual(cands, c, c + 1, i)
  {
    cur := c + 1;
    while cur < |cands| && cands[cur].tokens == cands[c].tokens && i > 0
      invariant c < cur <= |cands|
      invariant SkipEqual(cands, c, c + 1, i) == SkipEqual(cands, c, cur, i)
    {
      cur := cur + 1;
    }
  }

  // ------------------------------------------------------------------ a batch

  /** The batch of the active decoders among the first `j`, all at position `at`. */
  predicate Collected(active: seq<bool>, tokens: seq<seq<int>>, at: int, toks: seq<int>, pos: seq<int>,
                      ids: seq<seq<int>>, slot: seq<nat>, j: nat)
    requires j <= |active|
  {
    && |active| == |tokens| && |toks| == |pos| == |ids| == CountActive(active, j) && |slot| == j
    && (forall q :: 0 <= q < |ids| ==> pos[q] == at && OneBelow(ids[q], j))
    && (forall k :: 0 <= k < j && active[k] ==>
          slot[k] < |ids| && ids[slot[k]][0] == k && tokens[k] != [] && toks[slot[k]] == tokens[k][|tokens[k]| - 1])
    && (forall k, q :: 0 <= k < j && active[k] && 0 <= q < |ids| && q != slot[k] ==> ids[q][0] != k)
  }

  lemma CollectedNone(active: seq<bool>, tokens: seq<seq<int>>, at: int)
    requires |active| == |tokens|
    ensures Collected(active, tokens, at, [], [], [], [], 0)
  {
  }

  lemma CollectedSkip(active: seq<bool>, tokens: seq<seq<int>>, at: int, toks: seq<int>, pos: seq<int>,
                      ids: seq<seq<int>>, slot: seq<nat>, j: nat)
    requires j < |active| && !active[j] && Collected(active, tokens, at, toks, pos, ids, slot, j)
    ensures Collected(active, tokens, at, toks, pos, ids, slot + [|toks|], j + 1)
  {
  }

  lemma CollectedPush(active: seq<bool>, tokens: seq<seq<int>>, at: int, toks: seq<int>, pos: seq<int>,
                      ids: seq<seq<int>>, slot: seq<nat>, j: nat)
    requires j < |active| && active[j] && Collected(active, tokens, at, toks, pos, ids, slot, j) && tokens[j] != []
    ensures Collected(active, tokens, at, toks + [tokens[j][|tokens[j]| - 1]], pos + [at], ids + [[j]],
                      slot + [|toks|], j + 1)
  {
  }

  lemma CollectedAll(active: seq<bool>, tokens: seq<seq<int>>, at: int, toks: seq<int>, pos: seq<int>,
                     ids: seq<seq<int>>, slot: seq<nat>)
    requires Collected(active, tokens, at, toks, pos, ids, slot, |active|)
    ensures |active| == |tokens| == |slot| && |toks| == |pos| == |ids| == CountActive(active, |active|)
    ensures forall q :: 0 <= q < |ids| ==> pos[q] == at && ids[q] != [] && OneBelow(ids[q], |active|)
    ensures forall k :: 0 <= k < |active| && active[k] ==>
      slot[k] < |ids| && ids[slot[k]] == [k] && tokens[k] != [] && toks[slot[k]] == tokens[k][|tokens[k]| - 1]
    ensures forall k, q :: 0 <= k < |active| && active[k] && 0 <= q < |ids| && q != slot[k] ==> k !in ids[q]
  {
    hide CountActive;
    forall q | 0 <= q < |ids| ensures ids[q] == [ids[q][0]] {
      assert OneBelow(ids[q], |active|);
    }
  }

  // ---------------------------------------------------------------- the window

  class Window {
    const kv: Cache
    /** The decoder has position embeddings for positions below this. */
    const nTextCtx: nat
    ghost var content: seq<int>
    var prompt: seq<int>
    var tokens: seq<seq<int>>
    var active: seq<bool>

    constructor (kv: Cache, nTextCtx: nat)
      ensures this.kv == kv && this.nTextCtx == nTextCtx
    {
      this.kv, this.nTextCtx := kv, nTextCtx;
      content, prompt, tokens, active := [], [], [], [];
    }

    ghost predicate Shape()
      reads this, kv, kv.cells
    {
      && kv.head <= kv.cells.Length && |content| == kv.cells.Length
      && CellsOk(kv.cells[..]) && OnlyDecoders(kv.cells[..]) && HeldBy(kv.cells[..], |active|)
      && 1 <= |tokens| == |active| <= MAX_DECODERS
    }

    /** Before token `i`: every active decoder has sampled `i` tokens, and holds exactly the
        cells of the prompt followed by them. */
    ghost predicate Synced(i: nat)
      reads this, kv, kv.cells
    {
      && Shape()
      && forall j :: 0 <= j < |active| && active[j] ==>
           |tokens[j]| == i && Has(kv.cells[..], content, j, prompt + tokens[j])
    }

    /** After sampling token `i`: it is not in the cache yet. */
    ghost predicate Sampled(i: nat)
      reads this, kv, kv.cells
    {
      && Shape()
      && forall j :: 0 <= j < |active| && active[j] ==>
           |tokens[j]| == i + 1 && Has(kv.cells[..], content, j, prompt + tokens[j][..i])
    }

    /** One run of the model: find cells, size the view, build the mask. Row `q` of the mask
        admits the cells that hold the sequence of token `q` at no later position. */
    method Decode(b: Batch, pad: nat) returns (ok: bool, rows: seq<seq<bool>>)
      requires b.Ok() && b.tokens != [] && pad > 0 && forall q :: 0 <= q < |b.pos| ==> b.pos[q] < nTextCtx
      requires kv.head <= kv.cells.Length && |content| == kv.cells.Length
      modifies this`content, kv`head, kv`n, kv.cells
      ensures kv.head <= kv.cells.Length && |content| == kv.cells.Length
      ensures ok <==> HasRun(old(kv.cells[..]), |b.pos|)
      ensures ok ==> FreeRun(old(kv.cells[..]), kv.head, |b.pos|)
      ensures ok ==> kv.cells[..] == Enter(old(kv.cells[..]), kv.head, b)
      ensures ok ==> content == Written(old(content), kv.head, b.tokens)
      ensures ok ==> kv.n <= kv.cells.Length
      ensures ok ==> forall i :: kv.n <= i < kv.cells.Length ==> !(kv.cells[i].pos >= 0 && kv.cells[i].ids != {})
      ensures ok ==> ViewFits(kv.cells[..], kv.n, pad)
      ensures ok ==> |b.tokens| <= |rows| < |b.tokens| + 64 && |rows| % 64 == 0
      ensures ok ==> forall q :: 0 <= q < |rows| ==> |rows[q]| == kv.n
      ensures ok ==> forall q, i :: 0 <= q < |b.tokens| && 0 <= i < kv.n ==>
        (rows[q][i] <==> b.ids[q][0] in kv.cells[i].ids && kv.cells[i].pos <= b.pos[q])
      ensures ok ==> forall q, i :: |b.tokens| <= q < |rows| && 0 <= i < kv.n ==> !rows[q][i]
    {
      rows := [];
      ok := kv.FindSlot(b);
      if !ok {
        return;
      }
      content := Written(content, kv.head, b.tokens);
      var m := kv.CellMax();
      ghost var inUse := m - 1;
      PadToCovers(m, pad);
      var padded := PadTo(m, pad);
      var view := if pad >= padded then pad else padded;
      kv.n := if kv.cells.Length <= view then kv.cells.Length else view;
      assert kv.n > pad ==> Used(kv.cells[..], inUse) && kv.n <= inUse + pad;
      PadToCovers(|b.tokens|, KQ_MASK_PAD);
      rows := BuildMask(b);
    }

    method BuildMask(b: Batch) returns (rows: seq<seq<bool>>)
      requires b.Ok() && kv.n <= kv.cells.Length && PadTo(|b.tokens|, KQ_MASK_PAD) >= |b.tokens|
      ensures |rows| == PadTo(|b.tokens|, KQ_MASK_PAD) && forall q :: 0 <= q < |rows| ==> |rows[q]| == kv.n
      ensures forall q, i :: 0 <= q < |b.tokens| && 0 <= i < kv.n ==>
        (rows[q][i] <==> b.ids[q][0] in kv.cells[i].ids && kv.cells[i].pos <= b.pos[q])
      ensures forall q, i :: |b.tokens| <= q < |rows| && 0 <= i < kv.n ==> !rows[q][i]
    {
      rows := [];
      for q := 0 to |b.tokens|
        invariant |rows| == q && forall r :: 0 <= r < q ==> |rows[r]| == kv.n
        invariant forall r, i :: 0 <= r < q && 0 <= i < kv.n ==>
          (rows[r][i] <==> b.ids[r][0] in kv.cells[i].ids && kv.cells[i].pos <= b.pos[r])
      {
        var row := [];
        for i := 0 to kv.n
          invariant |row| == i
          invariant forall k :: 0 <= k < i ==>
            (row[k] <==> b.ids[q][0] in kv.cells[k].ids && kv.cells[k].pos <= b.pos[q])
        {
          var masked := b.ids[q][0] !in kv.cells[i].ids || kv.cells[i].pos > b.pos[q];
          row := row + [!masked];
        }
        rows := rows + [row];
      }
      var total := PadTo(|b.tokens|, KQ_MASK_PAD);
      while |rows| < total
        invariant |b.tokens| <= |rows| <= total && forall r :: 0 <= r < |rows| ==> |rows[r]| == kv.n
        invariant forall r, i :: 0 <= r < |b.tokens| && 0 <= i < kv.n ==>
          (rows[r][i] <==> b.ids[r][0] in kv.cells[i].ids && kv.cells[i].pos <= b.pos[r])
        invariant forall r, i :: |b.tokens| <= r < |rows| && 0 <= i < kv.n ==> !rows[r][i]
        decreases total - |rows|
      {
        rows := rows + [seq(kv.n, _ => false)];
      }
    }

    /** Clears the cache, runs the prompt for decoder 0, and copies it to the others. It fails
        only on a cache smaller than the prompt. */
    method Begin(text: seq<int>, decoders: nat, pad: nat) returns (ok: bool)
      requires 1 <= decoders <= MAX_DECODERS && 0 < |text| <= nTextCtx < POS_MAX && pad > 0
      modifies this, kv`head, kv`n, kv.cells
      ensures ok <==> |text| <= kv.cells.Length
      ensures ok ==> Synced(0) && prompt == text && |tokens| == |active| == decoders
      ensures ok ==> forall j :: 0 <= j < decoders ==> active[j] && tokens[j] == []
    {
      kv.ClearAll();
      prompt := text;
      tokens := seq(decoders, _ => []);
      active := seq(decoders, _ => true);
      content := seq(kv.cells.Length, _ => 0);
      var b := Batch(text, seq(|text|, i => i), seq(|text|, _ => [0]));
      ghost var was := kv.cells[..];
      ghost var had := content;
      var rows;
      assert |text| <= kv.cells.Length ==> FreeRun(was, 0, |text|);
      ok, rows := Decode(b, pad);
      if !ok {
        return;
      }
      PromptEnters(was, had, kv.head, b, 0);
      EnterKeepsOk(was, kv.head, b);
      CopyToOthers(decoders);
      assert forall j :: 0 <= j < decoders ==> text + tokens[j] == text;
    }

    /** Every other decoder starts with the history of decoder 0. */
    method CopyToOthers(decoders: nat)
      requires Shape() && |tokens| == |active| == decoders && Has(kv.cells[..], content, 0, prompt)
      requires forall i, k :: 0 <= i < kv.cells.Length && k in kv.cells[i].ids ==> k == 0
      modifies kv`head, kv.cells
      ensures Shape() && forall k :: 0 <= k < decoders ==> Has(kv.cells[..], content, k, prompt)
    {
      hide Has;
      for j := 1 to decoders
        invariant Shape()
        invariant forall k :: 0 <= k < j ==> Has(kv.cells[..], content, k, prompt)
        invariant forall i, k :: 0 <= i < kv.cells.Length && k in kv.cells[i].ids ==> k < j
      {
        ghost var before := kv.cells[..];
        kv.SeqCp(0, j, -1, -1);
        CopyGivesHistory(before, content, 0, j, prompt, kv.cells[..]);
        forall k | 0 <= k < j ensures Has(kv.cells[..], content, k, prompt) {
          CopyKeepsOthers(before, content, 0, j, k, prompt, kv.cells[..]);
        }
        CopyShape(before, kv.cells[..], j, decoders);
      }
    }

    lemma CopyShape(before: seq<Cell>, next: seq<Cell>, j: nat, n: nat)
      requires CellsOk(before) && OnlyDecoders(before) && HeldBy(before, n) && j < n <= MAX_DECODERS
      requires |next| == |before|
      requires forall i :: 0 <= i < |before| ==> next[i] == CpCell(before[i], 0, j, -1, -1)
      ensures CellsOk(next) && OnlyDecoders(next) && HeldBy(next, n)
    {
      forall i | 0 <= i < |before| ensures CellOk(next[i]) {
        CpCellAll(before[i], 0, j);
      }
    }

    /** Greedy: each active decoder appends its sampled token. */
    method SampleGreedy(ghost i: nat, sampled: seq<int>)
      requires Synced(i) && |sampled| == |active|
      modifies this`tokens
      ensures Sampled(i)
      ensures |tokens| == |old(tokens)| && forall j :: 0 <= j < |tokens| ==>
        tokens[j] == if active[j] then old(tokens)[j] + [sampled[j]] else old(tokens)[j]
    {
      ghost var was := tokens;
      for j := 0 to |active|
        invariant |tokens| == |was| == |active|
        invariant forall k :: 0 <= k < |tokens| ==>
          tokens[k] == if k < j && active[k] then was[k] + [sampled[k]] else was[k]
      {
        if !active[j] {
          continue;
        }
        tokens := tokens[j := tokens[j] + [sampled[j]]];
      }
      assert forall j :: 0 <= j < |active| && active[j] ==> tokens[j][..i] == was[j];
    }

    /** A candidate extends an active decoder's tokens by one. */
    ghost predicate CandidateOk(c: Candidate)
      reads this
    {
      && c.src < |active| == |tokens| && active[c.src]
      && c.tokens != [] && c.tokens[..|c.tokens| - 1] == tokens[c.src]
    }

    /** Beam search: each active decoder takes a candidate; the cache follows. */
    method SampleBeam(i: nat, cands: seq<Candidate>) returns (choice: seq<nat>, ghost taken: seq<nat>)
      requires Synced(i) && cands != [] && forall c :: 0 <= c < |cands| ==> CandidateOk(cands[c])
      modifies this`tokens, kv`head, kv.cells
      ensures Sampled(i)
      ensures |choice| == |tokens| == |old(tokens)| == |active|
      ensures HandedOut(cands, active, i, taken)
      ensures forall j :: 0 <= j < |tokens| ==>
        if active[j] then
          && tokens[j] == cands[taken[j]].tokens && choice[j] == cands[taken[j]].src
          && taken[j] == Walk(cands, i, CountActive(active, j)) && Picks(active, choice, j)
        else tokens[j] == old(tokens)[j]
      ensures forall j :: 0 <= j < |tokens| && active[j] ==>
        Picks(active, choice, j) && tokens[j] != [] && tokens[j][..|tokens[j]| - 1] == old(tokens)[choice[j]]
    {
      hide BeamCell, Has, SmallIds, CellOk, CandidateOk, Walk, CountActive, Picks, HandedOut;
      ghost var was, had := kv.cells[..], tokens;
      var chosen;
      choice, chosen, taken := PickCandidates(i, cands);
      Shuffle(kv, active, choice);
      tokens := Continue(active, tokens, chosen);
      BeamHistories(was, content, active, choice, prompt, had, tokens, i, kv.cells[..]);
    }

    /** The candidate each decoder takes, and the decoder that one continues. */
    method PickCandidates(i: nat, cands: seq<Candidate>)
      returns (choice: seq<nat>, chosen: seq<Candidate>, taken: seq<nat>)
      requires |active| == |tokens| <= MAX_DECODERS
      requires cands != [] && forall c :: 0 <= c < |cands| ==> CandidateOk(cands[c])
      ensures |chosen| == |choice| && ChoiceOk(active, choice)
      ensures forall j :: 0 <= j < |active| ==> chosen[j].src == choice[j]
      ensures HandedOut(cands, active, i, taken) && Taken(cands, taken, chosen)
      ensures forall j :: 0 <= j < |active| && active[j] ==> taken[j] == Walk(cands, i, CountActive(active, j))
      ensures forall j :: 0 <= j < |active| && active[j] ==>
        Picks(active, choice, j) && chosen[j].tokens != []
          && chosen[j].tokens[..|chosen[j].tokens| - 1] == tokens[choice[j]]
    {
      hide Walk, CountActive, HandedOut;
      taken := TakeCandidates(cands, active, i);
      chosen := seq(|taken|, j requires 0 <= j < |taken| && taken[j] < |cands| => cands[taken[j]]);
      choice := seq(|chosen|, j requires 0 <= j < |chosen| => chosen[j].src);
      forall j | 0 <= j < |active|
        ensures choice[j] < MAX_DECODERS && Picks(active, choice, j)
        ensures chosen[j].tokens != [] && chosen[j].tokens[..|chosen[j].tokens| - 1] == tokens[choice[j]]
      {
        assert chosen[j] == cands[taken[j]] && CandidateOk(cands[taken[j]]);
      }
    }

    /** Decoders that complete or fail drop out; their sequences are left alone. */
    method Finish(ghost i: nat, done: seq<bool>)
      requires Sampled(i) && |done| == |active|
      modifies this`active
      ensures Sampled(i) && |active| == |old(active)|
      ensures forall j :: 0 <= j < |active| ==> active[j] == (old(active)[j] && !done[j])
    {
      var was := active;
      active := seq(|was|, j requires 0 <= j < |was| && |was| == |done| => was[j] && !done[j]);
    }

    /** Runs the sampled tokens of all active decoders as one batch. Row `slot[j]` of the mask
        admits exactly decoder `j`'s own cells, and they all lie below `kv.n`. It fails exactly
        when no run of free cells is as long as there are active decoders; with one decoder and
        a cache of more cells than it has tokens there always is one. */
    method NextBatch(i: nat, pad: nat) returns (ok: bool, slot: seq<nat>, rows: seq<seq<bool>>)
      requires Sampled(i) && pad > 0 && |prompt| + i < nTextCtx < POS_MAX && exists j :: 0 <= j < |active| && active[j]
      modifies this`content, kv`head, kv`n, kv.cells
      ensures ok <==> HasRun(old(kv.cells[..]), CountActive(active, |active|))
      ensures |active| == 1 && |prompt| + i < kv.cells.Length ==> ok
      ensures ok ==> Synced(i + 1)
      ensures ok ==> |slot| == |active| && kv.n <= kv.cells.Length
      ensures ok ==> forall q :: 0 <= q < |rows| ==> |rows[q]| == kv.n
      ensures ok ==> forall j :: 0 <= j < |active| && active[j] ==> slot[j] < |rows|
      ensures ok ==> forall j, c :: 0 <= j < |active| && active[j] && 0 <= c < kv.n ==>
        (rows[slot[j]][c] <==> j in kv.cells[c].ids)
      ensures ok ==> forall j, c :: 0 <= j < |active| && active[j] && kv.n <= c < kv.cells.Length ==>
        j !in kv.cells[c].ids
    {
      hide Has, Enter, Written, OnlyDecoders, HeldBy, FreeRun, CountActive, HasRun, CellsOk;
      var b;
      b, slot := CollectBatch(i);
      ghost var was, had := kv.cells[..], content;
      if |active| == 1 && |prompt| + i < kv.cells.Length {
        OneFinds(was, had, active, prompt + tokens[0][..i]);
      }
      ok, rows := Decode(b, pad);
      if !ok {
        return;
      }
      EnteredHistories(was, had, kv.head, b, slot, i);
      forall j, c | 0 <= j < |active| && active[j] && 0 <= c < kv.cells.Length && j in kv.cells[c].ids
        ensures c < kv.n && kv.cells[c].pos <= |prompt| + i
      {
        HeldBelow(kv.cells[..], content, j, prompt + tokens[j], c);
      }
    }

    /** The batch leaves each active decoder with its whole history. */
    lemma EnteredHistories(was: seq<Cell>, had: seq<int>, h: nat, b: Batch, slot: seq<nat>, i: nat)
      requires CellsOk(was) && OnlyDecoders(was) && HeldBy(was, |active|) && b.Ok() && FreeRun(was, h, |b.pos|)
      requires |slot| == |active| == |tokens| <= MAX_DECODERS && |had| == |was|
      requires forall j :: 0 <= j < |active| && active[j] ==>
        |tokens[j]| == i + 1 && Has(was, had, j, prompt + tokens[j][..i])
      requires forall q :: 0 <= q < |b.ids| ==> OneBelow(b.ids[q], |active|)
      requires forall j :: 0 <= j < |active| && active[j] ==>
        slot[j] < |b.ids| && b.ids[slot[j]] == [j] && b.pos[slot[j]] == |prompt| + i
          && b.tokens[slot[j]] == tokens[j][i]
      requires forall j, q :: 0 <= j < |active| && active[j] && 0 <= q < |b.ids| && q != slot[j] ==> j !in b.ids[q]
      ensures CellsOk(Enter(was, h, b)) && OnlyDecoders(Enter(was, h, b)) && HeldBy(Enter(was, h, b), |active|)
      ensures forall j :: 0 <= j < |active| && active[j] ==>
        Has(Enter(was, h, b), Written(had, h, b.tokens), j, prompt + tokens[j])
    {
      hide Has, Enter, Written, OnlyDecoders, HeldBy, CellsOk;
      EnterKeepsOk(was, h, b);
      EnteredDecoders(was, h, b, |active|);
      forall j | 0 <= j < |active| && active[j]
        ensures Has(Enter(was, h, b), Written(had, h, b.tokens), j, prompt + tokens[j])
      {
        OneAppends(was, had, h, b, slot[j], j, prompt + tokens[j][..i]);
        assert prompt + tokens[j][..i] + [tokens[j][i]] == prompt + tokens[j];
      }
    }

    lemma EnteredDecoders(cells: seq<Cell>, h: nat, b: Batch, n: nat)
      requires b.Ok() && h + |b.pos| <= |cells| && OnlyDecoders(cells) && HeldBy(cells, n) && n <= MAX_DECODERS
      requires forall q :: 0 <= q < |b.ids| ==> OneBelow(b.ids[q], n)
      ensures OnlyDecoders(Enter(cells, h, b)) && HeldBy(Enter(cells, h, b), n)
    {
    }

    method CollectBatch(ghost i: nat) returns (b: Batch, slot: seq<nat>)
      requires Sampled(i) && |prompt| + i < nTextCtx < POS_MAX && exists j :: 0 <= j < |active| && active[j]
      ensures b.Ok() && b.tokens != [] && |slot| == |active|
      ensures forall q :: 0 <= q < |b.pos| ==> b.pos[q] == |prompt| + i
      ensures forall q :: 0 <= q < |b.ids| ==> OneBelow(b.ids[q], |active|)
      ensures |b.pos| == CountActive(active, |active|)
      ensures forall j :: 0 <= j < |active| && active[j] ==>
        slot[j] < |b.ids| && b.ids[slot[j]] == [j] && b.pos[slot[j]] == |prompt| + i
          && b.tokens[slot[j]] == tokens[j][i]
      ensures forall j, q :: 0 <= j < |active| && active[j] && 0 <= q < |b.ids| && q != slot[j] ==> j !in b.ids[q]
    {
      hide Has, CountActive, Collected, CellsOk, OnlyDecoders, HeldBy;
      var toks, pos, ids := [], [], [];
      slot := [];
      CollectedNone(active, tokens, |prompt| + i);
      for j := 0 to |active|
        invariant Collected(active, tokens, |prompt| + i, toks, pos, ids, slot, j)
      {
        if active[j] {
          CollectedPush(active, tokens, |prompt| + i, toks, pos, ids, slot, j);
        } else {
          CollectedSkip(active, tokens, |prompt| + i, toks, pos, ids, slot, j);
        }
        slot := slot + [|toks|];
        if active[j] {
          toks := toks + [tokens[j][|tokens[j]| - 1]];
          pos := pos + [|prompt| + |tokens[j]| - 1];
          ids := ids + [[j]];
        }
      }
      CollectedAll(active, tokens, |prompt| + i, toks, pos, ids, slot);
      b := Batch(toks, pos, ids);
    }
  }
}
