/** Multi-key input (src/key_dispatch.rs): what becomes of pending keystrokes when they stop matching.

    The keymap lookup for a fixed dispatch path is a function of the input, so it is a parameter. */
module KeyDispatch {

  type Keystroke = int
  type Binding = int

  // What the keymap says about an input: the bindings it completes, and whether more keys could match.
  datatype Lookup = Lookup(bindings: seq<Binding>, pending: bool)

  type Keymap = seq<Keystroke> -> Lookup

  datatype Replay = Replay(keystroke: Keystroke, bindings: seq<Binding>)

  datatype DispatchResult = DispatchResult(
    pending: seq<Keystroke>, pendingHasBinding: bool, bindings: seq<Binding>, toReplay: seq<Replay>)

  predicate Bound(keymap: Keymap, input: seq<Keystroke>) {
    keymap(input).bindings != []
  }

  // ---------------------------------------------------------------------------------------
  // Greedy blocks
  // ---------------------------------------------------------------------------------------

  /** `n` keys of `input` form its first block: its longest bound prefix, or one unbound key. */
  ghost predicate FirstBlock(keymap: Keymap, input: seq<Keystroke>, n: nat) {
    && 1 <= n <= |input|
    && (n == 1 || Bound(keymap, input[..n]))
    && forall longer :: n < longer <= |input| ==> !Bound(keymap, input[..longer])
  }

  /** The input is split into consecutive first blocks. */
  ghost predicate GreedyBlocks(keymap: Keymap, input: seq<Keystroke>, blocks: seq<seq<Keystroke>>) {
    if blocks == [] then input == []
    else
      && FirstBlock(keymap, input, |blocks[0]|)
      && blocks[0] == input[..|blocks[0]|]
      && GreedyBlocks(keymap, input[|blocks[0]|..], blocks[1..])
  }

  function Flatten(blocks: seq<seq<Keystroke>>): seq<Keystroke> {
    if blocks == [] then [] else blocks[0] + Flatten(blocks[1..])
  }

  /** Each block is replayed as its last key, with the bindings of the whole block. */
  ghost predicate ReplaysOf(keymap: Keymap, blocks: seq<seq<Keystroke>>, replays: seq<Replay>) {
    && |replays| == |blocks|
    && forall i :: 0 <= i < |blocks| ==>
         blocks[i] != [] && replays[i] == Replay(blocks[i][|blocks[i]| - 1], keymap(blocks[i]).bindings)
  }

  lemma {:induction false} GreedyBlocksCover(keymap: Keymap, input: seq<Keystroke>, blocks: seq<seq<Keystroke>>)
    requires GreedyBlocks(keymap, input, blocks)
    ensures Flatten(blocks) == input
    ensures forall i :: 0 <= i < |blocks| ==> blocks[i] != [] && (|blocks[i]| == 1 || Bound(keymap, blocks[i]))
  {
    if blocks != [] {
      GreedyBlocksCover(keymap, input[|blocks[0]|..], blocks[1..]);
    }
  }

  /** The split is unique: what is replayed is determined by the keymap and the input alone. */
  lemma {:induction false} GreedyBlocksUnique(keymap: Keymap, input: seq<Keystroke>,
                                              a: seq<seq<Keystroke>>, b: seq<seq<Keystroke>>)
    requires GreedyBlocks(keymap, input, a) && GreedyBlocks(keymap, input, b)
    ensures a == b
  {
    if a != [] {
      assert b != [];
      FirstBlockUnique(keymap, input, |a[0]|, |b[0]|);
      GreedyBlocksUnique(keymap, input[|a[0]|..], a[1..], b[1..]);
      assert a == [a[0]] + a[1..] && b == [b[0]] + b[1..];
    }
  }

  lemma FirstBlockUnique(keymap: Keymap, input: seq<Keystroke>, n: nat, m: nat)
    requires FirstBlock(keymap, input, n) && FirstBlock(keymap, input, m)
    ensures n == m
  {
    var longest := if n < m then m else n;
    assert longest == 1 || Bound(keymap, input[..longest]);
  }

  lemma PrependBlock(keymap: Keymap, input: seq<Keystroke>, n: nat, rest: seq<seq<Keystroke>>)
    requires FirstBlock(keymap, input, n) && GreedyBlocks(keymap, input[n..], rest)
    ensures GreedyBlocks(keymap, input, [input[..n]] + rest)
  {
    assert ([input[..n]] + rest)[1..] == rest;
  }

  lemma PrependReplay(keymap: Keymap, block: seq<Keystroke>, blocks: seq<seq<Keystroke>>, replays: seq<Replay>)
    requires block != [] && ReplaysOf(keymap, blocks, replays)
    ensures ReplaysOf(keymap, [block] + blocks, [Replay(block[|block| - 1], keymap(block).bindings)] + replays)
    ensures Flatten([block] + blocks) == block + Flatten(blocks)
  {
    assert ([block] + blocks)[1..] == blocks;
  }

  // ---------------------------------------------------------------------------------------
  // Replaying
  // ---------------------------------------------------------------------------------------

  /** Converts the first block to one replay event and returns the rest. The source panics on an
      empty input; its callers never pass one. */
  method ReplayPrefix(keymap: Keymap, input: seq<Keystroke>) returns (suffix: seq<Keystroke>, toReplay: seq<Replay>)
    requires input != []
    ensures |suffix| < |input|
    ensures var n := |input| - |suffix|;
      && FirstBlock(keymap, input, n)
      && suffix == input[n..]
      && toReplay == [Replay(input[n - 1], keymap(input[..n]).bindings)]
  {
    suffix, toReplay := input, [];
    var last: nat := |input|;
    while last > 0
      invariant last <= |input| && suffix == input && toReplay == []
      invariant forall longer :: last < longer <= |input| ==> !Bound(keymap, input[..longer])
    {
      last := last - 1;
      var bindings := keymap(input[..last + 1]).bindings;
      if bindings != [] {
        toReplay := [Replay(input[last], bindings)];
        suffix := input[last + 1..];
        break;
      }
    }
    if toReplay == [] {
      assert !Bound(keymap, input[..1]);
      toReplay := [Replay(input[0], [])];
      suffix := input[1..];
    }
  }

  /** Flushing terminates and replays the greedy blocks of the pending input, in order. */
  method FlushDispatch(keymap: Keymap, input: seq<Keystroke>) returns (toReplay: seq<Replay>)
    requires input != []
    ensures exists blocks :: GreedyBlocks(keymap, input, blocks) && ReplaysOf(keymap, blocks, toReplay)
    decreases |input|
  {
    hide GreedyBlocks, ReplaysOf, Flatten, FirstBlock;
    NothingToReplay(keymap);
    var suffix;
    suffix, toReplay := ReplayPrefix(keymap, input);
    ghost var n := |input| - |suffix|;
    if suffix != [] {
      var more := FlushDispatch(keymap, suffix);
      ghost var rest :| GreedyBlocks(keymap, suffix, rest) && ReplaysOf(keymap, rest, more);
      PrependBlock(keymap, input, n, rest);
      PrependReplay(keymap, input[..n], rest, more);
      toReplay := toReplay + more;
    } else {
      PrependBlock(keymap, input, n, []);
      PrependReplay(keymap, input[..n], [], []);
      assert toReplay == toReplay + [];
    }
  }

  // ---------------------------------------------------------------------------------------
  // Dispatching one more key
  // ---------------------------------------------------------------------------------------

  /** `blocks` are the first blocks of `input`, leaving `rest`; and with the new key appended, no
      remainder before `rest` was of any use. */
  ghost predicate GaveUp(keymap: Keymap, input: seq<Keystroke>, key: Keystroke, blocks: seq<seq<Keystroke>>,
                         rest: seq<Keystroke>) {
    if blocks == [] then rest == input
    else
      && input != []
      && !keymap(input + [key]).pending && !Bound(keymap, input + [key])
      && FirstBlock(keymap, input, |blocks[0]|)
      && blocks[0] == input[..|blocks[0]|]
      && GaveUp(keymap, input[|blocks[0]|..], key, blocks[1..], rest)
  }

  /** What happens to the remainder with the new key: it stays pending, fires, or is a lone key. */
  ghost predicate Settles(keymap: Keymap, rest: seq<Keystroke>, key: Keystroke, result: DispatchResult) {
    var final := rest + [key];
    if keymap(final).pending then
      result.pending == final && result.bindings == [] && result.pendingHasBinding == Bound(keymap, final)
    else
      && result.pending == [] && !result.pendingHasBinding
      && result.bindings == keymap(final).bindings
      && (result.bindings == [] ==> rest == [])
  }

  /** One dispatch: blocks given up and replayed, and a remainder that settles with the new key. */
  ghost predicate Dispatches(keymap: Keymap, input: seq<Keystroke>, key: Keystroke, blocks: seq<seq<Keystroke>>,
                             rest: seq<Keystroke>, result: DispatchResult) {
    && GaveUp(keymap, input, key, blocks, rest)
    && ReplaysOf(keymap, blocks, result.toReplay)
    && Settles(keymap, rest, key, result)
    && Flatten(blocks) + rest + [key] == input + [key]
  }

  /** No key is lost or repeated: the replayed blocks and the final input make up the old input plus
      the new key, and the final input is pending, bound, or the new key alone. */
  method DispatchKey(keymap: Keymap, input: seq<Keystroke>, key: Keystroke)
    returns (result: DispatchResult)
    ensures exists blocks, rest :: Dispatches(keymap, input, key, blocks, rest, result)
    decreases |input|
  {
    hide Flatten, FirstBlock, ReplaysOf;
    NothingToReplay(keymap);
    var extended := input + [key];
    var lookup := keymap(extended);
    if lookup.pending {
      result := DispatchResult(extended, lookup.bindings != [], [], []);
      assert Dispatches(keymap, input, key, [], input, result);
      return;
    } else if lookup.bindings != [] {
      result := DispatchResult([], false, lookup.bindings, []);
      assert Dispatches(keymap, input, key, [], input, result);
      return;
    } else if |extended| == 1 {
      result := DispatchResult([], false, [], []);
      assert Dispatches(keymap, input, key, [], input, result);
      return;
    }
    var suffix, toReplay := ReplayPrefix(keymap, input);
    ghost var n := |input| - |suffix|;
    var later := DispatchKey(keymap, suffix, key);
    ghost var blocks, rest :| Dispatches(keymap, suffix, key, blocks, rest, later);
    PrependReplay(keymap, input[..n], blocks, later.toReplay);
    GaveUpMore(keymap, input, key, n, blocks, rest);
    FlattenMore(input, n, blocks, rest, key);
    result := later.(toReplay := toReplay + later.toReplay);
    assert Dispatches(keymap, input, key, [input[..n]] + blocks, rest, result);
  }

  lemma NothingToReplay(keymap: Keymap)
    ensures Flatten([]) == [] && ReplaysOf(keymap, [], []) && GreedyBlocks(keymap, [], [])
  {
  }

  lemma GaveUpMore(keymap: Keymap, input: seq<Keystroke>, key: Keystroke, n: nat, blocks: seq<seq<Keystroke>>,
                   rest: seq<Keystroke>)
    requires FirstBlock(keymap, input, n) && GaveUp(keymap, input[n..], key, blocks, rest)
    requires !keymap(input + [key]).pending && !Bound(keymap, input + [key])
    ensures GaveUp(keymap, input, key, [input[..n]] + blocks, rest)
  {
    assert ([input[..n]] + blocks)[1..] == blocks;
  }

  lemma FlattenMore(input: seq<Keystroke>, n: nat, blocks: seq<seq<Keystroke>>, rest: seq<Keystroke>, key: Keystroke)
    requires n <= |input| && Flatten(blocks) + rest + [key] == input[n..] + [key]
    ensures Flatten([input[..n]] + blocks) + rest + [key] == input + [key]
  {
    assert ([input[..n]] + blocks)[1..] == blocks;
    FlattenCut(blocks, rest, input[n..], key);
    assert input == input[..n] + input[n..];
  }

  lemma FlattenCut(blocks: seq<seq<Keystroke>>, rest: seq<Keystroke>, suffix: seq<Keystroke>, key: Keystroke)
    requires Flatten(blocks) + rest + [key] == suffix + [key]
    ensures Flatten(blocks) + rest == suffix
  {
    assert (Flatten(blocks) + rest + [key])[..|suffix|] == suffix;
  }

  /** Giving up on part of the input replays it exactly as a flush of the whole input would begin. */
  lemma {:induction false} DispatchReplaysLikeFlush(keymap: Keymap, input: seq<Keystroke>, key: Keystroke,
      blocks: seq<seq<Keystroke>>, rest: seq<Keystroke>, restBlocks: seq<seq<Keystroke>>)
    requires GaveUp(keymap, input, key, blocks, rest)
    requires GreedyBlocks(keymap, rest, restBlocks)
    ensures GreedyBlocks(keymap, input, blocks + restBlocks)
  {
    if blocks == [] {
      assert blocks + restBlocks == restBlocks;
    } else {
      var n := |blocks[0]|;
      DispatchReplaysLikeFlush(keymap, input[n..], key, blocks[1..], rest, restBlocks);
      assert blocks + restBlocks == [input[..n]] + (blocks[1..] + restBlocks);
      PrependBlock(keymap, input, n, blocks[1..] + restBlocks);
    }
  }
}
