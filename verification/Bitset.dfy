/** Sets of operation ids packed into 64-bit words.  A word is represented by the
    positions of its one bits, so that |= and &^= with 1 << i add and remove i and
    ^ is the symmetric difference. */
module Bitset {
  type Word = w: set<nat> | forall i :: i in w ==> i < 64

  /** The word holding the binary digits of n from position k on, truncated to 64 bits. */
  function Digits(n: nat, k: nat): Word
    requires k <= 64
    decreases 64 - k
  {
    if k == 64 then {} else Digits(n / 2, k + 1) + (if n % 2 == 1 then {k} else {})
  }

  function Xor(a: Word, b: Word): Word { (a - b) + (b - a) }

  predicate Has(words: seq<Word>, p: nat) {
    p / 64 < |words| && p % 64 in words[p / 64]
  }

  ghost function Members(words: seq<Word>): set<nat> {
    set p: nat | p < 64 * |words| && Has(words, p)
  }

  lemma SetMembers(words: seq<Word>, pos: nat)
    requires pos < 64 * |words|
    ensures Members(words[pos / 64 := words[pos / 64] + {pos % 64}]) == Members(words) + {pos}
  {
  }

  lemma ClearMembers(words: seq<Word>, pos: nat)
    requires pos < 64 * |words|
    ensures Members(words[pos / 64 := words[pos / 64] - {pos % 64}]) == Members(words) - {pos}
  {
  }

  lemma SameMembersSameWord(a: seq<Word>, b: seq<Word>, k: nat)
    requires |a| == |b| && Members(a) == Members(b) && k < |a|
    ensures a[k] == b[k]
  {
    forall i: nat ensures i in a[k] <==> i in b[k] {
      if i < 64 {
        var p := 64 * k + i;
        assert p / 64 == k && p % 64 == i;
        assert p in Members(a) <==> p in Members(b);
      }
    }
  }

  /** Bitsets of equal length are equal exactly when they hold the same members. */
  lemma MembersDecide(a: seq<Word>, b: seq<Word>)
    requires |a| == |b|
    ensures a == b <==> Members(a) == Members(b)
  {
    if Members(a) == Members(b) {
      forall k: nat | k < |a| ensures a[k] == b[k] { SameMembersSameWord(a, b, k); }
    }
  }

  function Chunks(bits: nat): nat { bits / 64 + (if bits % 64 != 0 then 1 else 0) }

  method NewBitset(bits: nat) returns (b: array<Word>)
    ensures fresh(b) && b.Length == Chunks(bits) && Members(b[..]) == {}
  {
    b := new Word[Chunks(bits)](_ => {});
  }

  method Clone(b: array<Word>) returns (c: array<Word>)
    ensures fresh(c) && c[..] == b[..]
  {
    c := new Word[b.Length](i requires 0 <= i < b.Length reads b => b[i]);
  }

  method Set(b: array<Word>, pos: nat)
    requires pos < 64 * b.Length
    modifies b
    ensures Members(b[..]) == old(Members(b[..])) + {pos}
  {
    var major, minor := pos / 64, pos % 64;
    SetMembers(b[..], pos);
    b[major] := b[major] + {minor};
    assert b[..] == old(b[..])[major := b[major]];
  }

  method Clear(b: array<Word>, pos: nat)
    requires pos < 64 * b.Length
    modifies b
    ensures Members(b[..]) == old(Members(b[..])) - {pos}
  {
    var major, minor := pos / 64, pos % 64;
    ClearMembers(b[..], pos);
    b[major] := b[major] - {minor};
    assert b[..] == old(b[..])[major := b[major]];
  }

  function PopCount(words: seq<Word>): nat {
    if words == [] then 0 else PopCount(words[..|words| - 1]) + |words[|words| - 1]|
  }

  function Folded(words: seq<Word>, h: Word): Word {
    if words == [] then h else Xor(Folded(words[..|words| - 1], h), words[|words| - 1])
  }

  /** The bucket a bitset falls into. */
  function HashOf(words: seq<Word>): Word { Folded(words, Digits(PopCount(words), 0)) }

  method Popcnt(words: seq<Word>) returns (total: nat)
    ensures total == PopCount(words)
  {
    total := 0;
    for i := 0 to |words|
      invariant total == PopCount(words[..i])
    {
      assert words[..i + 1][..i] == words[..i];
      total := total + |words[i]|;
    }
    assert words[..|words|] == words;
  }

  method Hash(words: seq<Word>) returns (h: Word)
    ensures h == HashOf(words)
  {
    var total := Popcnt(words);
    h := Digits(total, 0);
    ghost var seed := h;
    for i := 0 to |words|
      invariant h == Folded(words[..i], seed)
    {
      assert words[..i + 1][..i] == words[..i];
      h := Xor(h, words[i]);
    }
    assert words[..|words|] == words;
  }

  /** Comparing word by word decides equality of the sets. */
  method Equals(a: seq<Word>, b: seq<Word>) returns (r: bool)
    ensures r <==> |a| == |b| && Members(a) == Members(b)
  {
    if |a| != |b| {
      return false;
    }
    MembersDecide(a, b);
    for i := 0 to |a|
      invariant a[..i] == b[..i]
    {
      if a[i] != b[i] {
        return false;
      }
    }
    return true;
  }
}
