/** Shared vocabulary: optional values, turns of a conversation, the token estimate. */
module Prelude {

  datatype Option<+T> = None | Some(value: T)

  datatype List<+T> = Nil | Cons(head: T, tail: List<T>)

  datatype Role = User | Assistant | Tool

  /** One (role, text, ts) turn of a rebuilt conversation. */
  datatype Turn = Turn(role: Role, text: string, ts: real)

  function Max(a: int, b: int): int {
    if a < b then b else a
  }

  function Min(a: int, b: int): int {
    if a < b then a else b
  }

  /** About four characters a token, never zero. */
  function EstimateTokens(text: string): (n: nat)
    ensures 4 * n <= |text| < 4 * n + 4 || (|text| < 4 && n == 1)
  {
    Max(1, |text| / 4)
  }

  function TokenTotal(turns: seq<Turn>): nat {
    if turns == [] then 0
    else TokenTotal(turns[..|turns| - 1]) + EstimateTokens(turns[|turns| - 1].text)
  }

  lemma {:induction false} TokensAdd(a: seq<Turn>, b: seq<Turn>)
    ensures TokenTotal(a + b) == TokenTotal(a) + TokenTotal(b)
    ensures forall t: Turn :: TokenTotal([t]) == EstimateTokens(t.text)
  {
    forall t: Turn ensures TokenTotal([t]) == EstimateTokens(t.text) {
      assert [t][..0] == [];
    }
    if b == [] {
      assert a + b == a;
    } else {
      TokensAdd(a, b[..|b| - 1]);
      assert (a + b)[..|a + b| - 1] == a + b[..|b| - 1];
    }
  }

  function Pow10(k: nat): nat {
    if k == 0 then 1 else 10 * Pow10(k - 1)
  }

  function Length<T>(xs: List<T>): nat {
    if xs.Nil? then 0 else 1 + Length(xs.tail)
  }
}
