/** The placeholder skills embedding of the pgvector search: each skill is
    hashed to the sum of its character codes, and the hash of the skill at
    position i is folded into slot `i mod 1536` of a vector of zeros as
    `(slot + hash) % 1000 / 1000`. */
module Embedding {

  /** The vector length (that of OpenAI ada-002 embeddings). */
  const Dimension: nat := 1536

  /** `skill.split('').reduce((acc, c) => acc + c.charCodeAt(0), 0)`. */
  function CharCodeSum(skill: string): nat
    decreases |skill|
  {
    if |skill| == 0 then 0 else (skill[0] as int) + CharCodeSum(skill[1..])
  }

  /** JavaScript's `x % 1000` for a non-negative number. */
  function Mod1000(x: real): (r: real)
    requires x >= 0.0
    ensures 0.0 <= r < 1000.0
  {
    x - 1000.0 * ((x / 1000.0).Floor as real)
  }

  /** The new value of a slot that holds `slot` when a skill with hash
      `hash` is folded into it: `(slot + hash) % 1000 / 1000`. */
  function Fold(slot: real, hash: nat): (r: real)
    requires slot >= 0.0
    ensures 0.0 <= r < 1.0
  {
    Mod1000(slot + hash as real) / 1000.0
  }

  /** The embedding of an ordered skill list: `Dimension` entries, each in
      [0, 1). The skills are folded in list order, the i-th into slot
      `i % Dimension`. */
  function Embedding(skills: seq<string>): (e: seq<real>)
    ensures |e| == Dimension
    ensures forall i :: 0 <= i < |e| ==> 0.0 <= e[i] < 1.0
    decreases |skills|
  {
    if |skills| == 0 then seq(Dimension, _ => 0.0)
    else
      var prev := Embedding(skills[..|skills| - 1]);
      var slot := (|skills| - 1) % Dimension;
      prev[slot := Fold(prev[slot], CharCodeSum(skills[|skills| - 1]))]
  }

  /** `generateEmbedding`: fills a zeroed array of `Dimension` slots,
      skill by skill. */
  method GenerateEmbedding(skills: seq<string>) returns (e: seq<real>)
    ensures e == Embedding(skills)
  {
    var embedding := new real[Dimension](_ => 0.0);
    var index := 0;
    while index < |skills|
      invariant 0 <= index <= |skills|
      invariant embedding[..] == Embedding(skills[..index])
    {
      assert skills[..index + 1][..index] == skills[..index];
      var hash := CharCodeSum(skills[index]);
      var slot := index % Dimension;
      embedding[slot] := Fold(embedding[slot], hash);
      index := index + 1;
    }
    assert skills[..index] == skills;
    e := embedding[..];
  }

  lemma FloorOfThousandth(h: nat)
    ensures (h as real / 1000.0).Floor == h / 1000
  {
    var q, r := h / 1000, h % 1000;
    assert h == 1000 * q + r;
    assert h as real / 1000.0 == q as real + r as real / 1000.0;
  }

  /** Folding a hash into an untouched slot gives `(hash % 1000) / 1000`. */
  lemma FoldIntoZero(h: nat)
    ensures Fold(0.0, h) == (h % 1000) as real / 1000.0
  {
    FloorOfThousandth(h);
    assert h == 1000 * (h / 1000) + h % 1000;
  }

  /** With at most `Dimension` skills no slot is written twice: slot i holds
      `(hash_i % 1000) / 1000` for the i-th skill and the slots past the
      last skill stay 0. */
  lemma {:induction false} EmbeddingOfFewSkills(skills: seq<string>)
    requires |skills| <= Dimension
    ensures forall i :: 0 <= i < Dimension ==>
      Embedding(skills)[i]
        == if i < |skills| then (CharCodeSum(skills[i]) % 1000) as real / 1000.0 else 0.0
    decreases |skills|
  {
    if |skills| > 0 {
      var n := |skills| - 1;
      var init := skills[..n];
      EmbeddingOfFewSkills(init);
      assert n % Dimension == n;
      FoldIntoZero(CharCodeSum(skills[n]));
      forall i | 0 <= i < Dimension
        ensures Embedding(skills)[i]
                == if i < |skills| then (CharCodeSum(skills[i]) % 1000) as real / 1000.0 else 0.0
      {
        if i < n {
          assert init[i] == skills[i];
        }
      }
    }
  }
}
