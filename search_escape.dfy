/** Escaping of user search strings before they reach the full-text engine (backend/app/db/util.py). */
module SearchEscape {

  /** The twelve characters of the translation table: `^ { } [ ] ( ) < > ' " ``. */
  predicate IsSpecial(c: char)
  {
    c == '^' || c == '{' || c == '}' || c == '[' || c == ']' || c == '(' || c == ')'
    || c == '<' || c == '>' || c == '\'' || c == '"' || c == '`'
  }

  /** The translation table applied to one character. */
  function Translate(c: char): string
  {
    if IsSpecial(c) then ['\\', c] else [c]
  }

  /** `str.translate` with the table: every character mapped independently, in order. */
  function Escape(q: string): (r: string)
    ensures |r| == |q| + CountSpecial(q)
    ensures forall i :: 0 <= i < |r| && IsSpecial(r[i]) ==> i > 0 && r[i - 1] == '\\'
    ensures r != [] ==> !IsSpecial(r[0])
  {
    if q == [] then []
    else
      var rest := Escape(q[1..]);
      assert forall i :: 0 <= i < |rest| && IsSpecial(rest[i]) ==> i > 0 && rest[i - 1] == '\\';
      Translate(q[0]) + rest
  }

  /** The number of special characters in `q`. */
  function CountSpecial(q: string): nat
  {
    if q == [] then 0 else (if IsSpecial(q[0]) then 1 else 0) + CountSpecial(q[1..])
  }

  /** Escaping works character by character, so it distributes over concatenation. */
  lemma {:induction false} EscapeAppend(a: string, b: string)
    ensures Escape(a + b) == Escape(a) + Escape(b)
  {
    if a != [] {
      assert (a + b)[0] == a[0] && (a + b)[1..] == a[1..] + b;
      EscapeAppend(a[1..], b);
      calc {
        Escape(a + b);
        Translate(a[0]) + Escape(a[1..] + b);
        Translate(a[0]) + (Escape(a[1..]) + Escape(b));
        Escape(a) + Escape(b);
      }
    } else {
      assert a + b == b;
    }
  }

  /** A string without special characters is returned unchanged. */
  lemma {:induction false} EscapePlain(q: string)
    requires forall i :: 0 <= i < |q| ==> !IsSpecial(q[i])
    ensures Escape(q) == q
  {
    if q != [] {
      EscapePlain(q[1..]);
    }
  }

  /** Each special character becomes a backslash and itself; every other character (a backslash too) is copied. */
  lemma EscapeOneChar(c: char)
    ensures IsSpecial(c) ==> Escape([c]) == ['\\', c]
    ensures !IsSpecial(c) ==> Escape([c]) == [c]
  {
    assert [c][1..] == [];
  }

  /** Drops the backslash in front of every special character. */
  function Unescape(r: string): string
    decreases |r|
  {
    if r == [] then []
    else if |r| >= 2 && r[0] == '\\' && IsSpecial(r[1]) then [r[1]] + Unescape(r[2..])
    else [r[0]] + Unescape(r[1..])
  }

  /** Removing the inserted backslashes recovers the input. */
  lemma {:induction false} UnescapeEscape(q: string)
    ensures Unescape(Escape(q)) == q
  {
    if q != [] {
      var rest := Escape(q[1..]);
      UnescapeEscape(q[1..]);
      if IsSpecial(q[0]) {
        assert Escape(q) == ['\\', q[0]] + rest;
        assert Escape(q)[2..] == rest;
      } else {
        assert Escape(q) == [q[0]] + rest;
        assert Escape(q)[1..] == rest;
        // the next character of the output, if any, is never special
        assert |Escape(q)| >= 2 ==> !IsSpecial(Escape(q)[1]);
      }
    }
  }

  /** Different search strings stay different after escaping. */
  lemma EscapeInjective(a: string, b: string)
    requires Escape(a) == Escape(b)
    ensures a == b
  {
    UnescapeEscape(a);
    UnescapeEscape(b);
  }
}
