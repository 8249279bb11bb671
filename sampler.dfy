/**
 * The token-budget sampler: the `while rest > 0: p = keys.pop(0) ...` loop that
 * both note scripts run over the shuffled keys of the fragment store. The two
 * copies differ only in how a fragment is rendered (`make_digest`), which is a
 * parameter here.
 */
module Sampler {
  import opened Scrapbox

  /** A stored fragment's payload (`data[key][1]`): a page title and a chunk of its text. */
  datatype Fragment = Fragment(title: string, text: string)

  /** The token ceiling the scripts budget every prompt against. */
  const TokenCeiling: int := 4000

  /**
   * A prompt template with the two placeholders `{previous_notes}` and
   * `{digest_str}`, in that order; `head`, `middle` and `tail` are the fixed text
   * around them.
   */
  datatype NotesPrompt = NotesPrompt(head: string, middle: string, tail: string)
  {
    /** The template as written, placeholders included: what `get_size(PROMPT)` measures. */
    function Raw(): string
    {
      head + "{previous_notes}" + middle + "{digest_str}" + tail
    }

    /** `PROMPT.format(digest_str=..., previous_notes=...)`. */
    function Render(previousNotes: string, digestStr: string): string
    {
      head + previousNotes + middle + digestStr + tail
    }
  }

  /** `rest = 4000 - get_size(PROMPT) - get_size(previous_notes)`: the tokens left for fragments. */
  function Budget(template: NotesPrompt, previousNotes: string, size: string -> nat): int
  {
    TokenCeiling - size(template.Raw()) - size(previousNotes)
  }

  /** What the loop leaves behind: the accepted digests and titles, in acceptance order, and the budget left. */
  datatype Sample = Sample(digests: seq<string>, titles: seq<string>, rest: int)

  /** `order` is `list(data.keys())` after `random.shuffle`: every key of the store, each once. */
  predicate IsShuffleOf<K>(order: seq<K>, data: map<K, Fragment>)
  {
    (forall k :: k in order ==> k in data) && (forall k :: k in data ==> k in order) && |order| == |data|
  }

  /** The tokens of the texts of the fragments stored under `keys`. */
  function TextTokens<K>(data: map<K, Fragment>, keys: seq<K>, size: string -> nat): nat
    requires forall k :: k in keys ==> k in data
  {
    if |keys| == 0 then 0
    else TextTokens(data, keys[..|keys| - 1], size) + size(data[keys[|keys| - 1]].text)
  }

  /** A prefix of the keys never holds more tokens than all of them. */
  lemma {:induction false} TextTokensPrefix<K>(data: map<K, Fragment>, keys: seq<K>, n: nat, size: string -> nat)
    requires forall k :: k in keys ==> k in data
    requires n <= |keys|
    ensures TextTokens(data, keys[..n], size) <= TextTokens(data, keys, size)
    decreases |keys|
  {
    if n < |keys| {
      var init := keys[..|keys| - 1];
      assert keys[..n] == init[..n];
      TextTokensPrefix(data, init, n, size);
    } else {
      assert keys[..n] == keys;
    }
  }

  /** The budget left after the first `j` fragments of `order` were taken. */
  function Left<K>(data: map<K, Fragment>, order: seq<K>, budget: int, size: string -> nat, j: nat): int
    requires forall k :: k in order ==> k in data
    requires j <= |order|
  {
    budget - TextTokens(data, order[..j], size)
  }

  /** Fragment `j` is taken: budget remained before it, and its text fits what remained. */
  predicate Taken<K>(data: map<K, Fragment>, order: seq<K>, budget: int, size: string -> nat, j: nat)
  {
    && (forall k :: k in order ==> k in data)
    && j < |order|
    && 0 < Left(data, order, budget, size, j)
    && size(data[order[j]].text) <= Left(data, order, budget, size, j)
  }

  /**
   * `n` is where the greedy scan over `order` stops with budget `budget`: each of
   * the first `n` fragments was taken, and then either the budget is used up or
   * fragment `n` is larger than what remains.
   */
  predicate GreedyStop<K>(data: map<K, Fragment>, order: seq<K>, budget: int, size: string -> nat, n: nat)
    requires forall k :: k in order ==> k in data
  {
    && n <= |order|
    && (forall j :: 0 <= j < n ==> Taken(data, order, budget, size, j))
    && (Left(data, order, budget, size, n) <= 0 || (n < |order| && !Taken(data, order, budget, size, n)))
  }

  /** The stopping point is determined by the order and the budget: the scan never skips a fragment to take a later one. */
  lemma GreedyStopUnique<K>(data: map<K, Fragment>, order: seq<K>, budget: int, size: string -> nat, n1: nat, n2: nat)
    requires forall k :: k in order ==> k in data
    requires GreedyStop(data, order, budget, size, n1) && GreedyStop(data, order, budget, size, n2)
    ensures n1 == n2
  {
    var first: nat := if n1 < n2 then n1 else n2;
    assert n1 != n2 ==> Taken(data, order, budget, size, first);
  }

  /** Taking fragment `n` lowers the budget by the tokens of its text. */
  lemma LeftStep<K>(data: map<K, Fragment>, order: seq<K>, budget: int, size: string -> nat, n: nat)
    requires forall k :: k in order ==> k in data
    requires n < |order|
    ensures Left(data, order, budget, size, n + 1) == Left(data, order, budget, size, n) - size(data[order[n]].text)
  {
    assert order[..n + 1][..n] == order[..n];
  }

  /**
   * Walks the shuffled keys from the front, accepting each fragment whose text fits
   * the remaining budget and stopping at the first that does not. Running out of
   * keys while budget remains is the IndexError of `keys.pop(0)`.
   */
  method SampleFragments<K>(data: map<K, Fragment>, order: seq<K>, budget: int,
                            size: string -> nat, digest: Fragment -> string)
    returns (r: Result<Sample>)
    requires forall k :: k in order ==> k in data
    ensures r.Err? <==> TextTokens(data, order, size) < budget
    ensures r.Err? ==> r.error == KeysExhausted
    ensures r.Ok? ==>
      var n := |r.value.titles|;
      && GreedyStop(data, order, budget, size, n)
      && |r.value.digests| == n
      && (forall j :: 0 <= j < n ==>
            r.value.titles[j] == data[order[j]].title && r.value.digests[j] == digest(data[order[j]]))
      && r.value.rest == Left(data, order, budget, size, n)
    ensures r.Ok? && r.value.titles != [] ==> 0 <= r.value.rest && TextTokens(data, order[..|r.value.titles|], size) <= budget
    ensures r.Ok? && budget <= 0 ==> r.value.titles == [] && r.value.rest == budget
  {
    var keys := order;
    var rest := budget;
    var digests: seq<string> := [];
    var titles: seq<string> := [];
    assert order[..0] == [];
    while rest > 0
      invariant |digests| == |titles| <= |order|
      invariant keys == order[|titles|..]
      invariant forall j :: 0 <= j < |titles| ==>
        titles[j] == data[order[j]].title && digests[j] == digest(data[order[j]])
      invariant rest == Left(data, order, budget, size, |titles|)
      invariant forall j :: 0 <= j < |titles| ==> Taken(data, order, budget, size, j)
      invariant titles != [] ==> 0 <= rest
      invariant budget <= 0 ==> titles == []
      decreases |keys|
    {
      if |keys| == 0 {
        assert order[..|titles|] == order;
        return Err(KeysExhausted);
      }
      var p := keys[0];
      keys := keys[1..];
      var payload := data[p];
      var s := size(payload.text);
      LeftStep(data, order, budget, size, |titles|);
      if s > rest {
        TextTokensPrefix(data, order, |titles| + 1, size);
        break;
      }
      digests := digests + [digest(payload)];
      titles := titles + [payload.title];
      rest := rest - s;
    }
    TextTokensPrefix(data, order, |titles|, size);
    r := Ok(Sample(digests, titles, rest));
  }
}
