/** String helpers: substring search (String.prototype.includes) and the
    way a JavaScript template literal renders a rupee amount. */
module Text {

  /** sub occurs in s starting at index i. */
  ghost predicate OccursAt(s: string, sub: string, i: int) {
    0 <= i && i + |sub| <= |s| && s[i..i + |sub|] == sub
  }

  /** s.includes(sub). */
  function Contains(s: string, sub: string): (b: bool)
    ensures b <==> exists i :: OccursAt(s, sub, i)
  {
    if |sub| > |s| then false
    else if s[..|sub|] == sub then (assert OccursAt(s, sub, 0); true)
    else
      var rest := Contains(s[1..], sub);
      assert rest ==> exists i :: OccursAt(s, sub, i) by {
        if rest {
          var j :| OccursAt(s[1..], sub, j);
          assert s[j + 1..j + 1 + |sub|] == s[1..][j..j + |sub|];
          assert OccursAt(s, sub, j + 1);
        }
      }
      assert (exists i :: OccursAt(s, sub, i)) ==> rest by {
        if exists i :: OccursAt(s, sub, i) {
          var i :| OccursAt(s, sub, i);
          assert i != 0;
          assert s[1..][i - 1..i - 1 + |sub|] == s[i..i + |sub|];
          assert OccursAt(s[1..], sub, i - 1);
        }
      }
      rest
  }

  /** A string that starts with sub contains it, whatever follows. */
  lemma ContainsPrefix(p: string, rest: string, sub: string)
    requires |sub| <= |p| && p[..|sub|] == sub
    ensures Contains(p + rest, sub)
  {
    assert (p + rest)[0..|sub|] == sub;
    assert OccursAt(p + rest, sub, 0);
  }

  /** The pieces of a three-part concatenation sit where they were put. */
  lemma ConcatPieces(a: string, b: string, c: string)
    ensures (a + b + c)[..|a|] == a
    ensures (a + b + c)[|a|..|a| + |b|] == b
  {
    assert a + b + c == a + (b + c);
  }

  /** Decimal digits of a natural number (Number.prototype.toString). */
  function NatText(n: nat): (s: string)
    ensures |s| >= 1
    ensures forall k :: 0 <= k < |s| ==> '0' <= s[k] <= '9'
    decreases n
  {
    if n < 10 then [Digit(n)] else NatText(n / 10) + [Digit(n % 10)]
  }

  function Digit(d: nat): (c: char)
    requires d < 10
    ensures '0' <= c <= '9'
  {
    ['0', '1', '2', '3', '4', '5', '6', '7', '8', '9'][d]
  }

  /** How `${x}` renders a non-negative rupee value x held as paise p:
      whole rupees, then the paise without trailing zeros (46.5, 7.23, 12). */
  function RupeeText(p: nat): (s: string)
    ensures |s| >= 1
  {
    var whole := NatText(p / 100);
    var cents := p % 100;
    if cents == 0 then whole
    else if cents % 10 == 0 then whole + "." + [Digit(cents / 10)]
    else whole + "." + [Digit(cents / 10), Digit(cents % 10)]
  }
}
