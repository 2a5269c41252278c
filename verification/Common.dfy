/** What several modules share. */
module Common {

  datatype Option<+T> = None | Some(value: T) {
    function GetOr(default: T): T { if Some? then value else default }
  }

  /** A point, and the size of the screen that it is on. */
  datatype Position = Position(x: int, y: int, width: nat, height: nat)

  function Min(a: int, b: int): int { if a < b then a else b }

  /** C's division by a positive number, which truncates toward zero. */
  function Truncate(a: int, b: nat): int
    requires b > 0
  {
    if a >= 0 then a / b else -((-a) / b)
  }

  lemma ProductGrows(a: int, b: int, m: nat)
    requires a <= b
    ensures a * m <= b * m
  {
  }

  lemma Assoc<T>(a: seq<T>, b: seq<T>, c: seq<T>)
    ensures a + (b + c) == (a + b) + c
  {
  }

  lemma HeadAndTail<T>(s: seq<T>)
    requires s != []
    ensures s == [s[0]] + s[1..]
  {
  }

  lemma NothingAdded<T>(s: seq<T>)
    ensures [] + s == s && s + [] == s
  {
  }

  lemma MiddleSlice<T>(s: seq<T>, a: seq<T>, b: seq<T>, c: seq<T>)
    requires s == a + (b + c)
    ensures |s| >= |a| + |b| && s[|a|..|a| + |b|] == b
  {
  }
}
