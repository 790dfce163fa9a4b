/**
 * The string operations the pages use: `toLowerCase`/`toUpperCase` (on ASCII
 * letters), `includes`, `split(' ')` and the initials badge
 * `name.split(' ').map(n => n[0]).join('').toUpperCase()`. A string is a
 * sequence of code points, where JavaScript indexes UTF-16 code units.
 */
module Text {

  function LowerChar(c: char): char
  {
    if 'A' <= c <= 'Z' then (c as int + 32) as char else c
  }

  function UpperChar(c: char): char
  {
    if 'a' <= c <= 'z' then (c as int - 32) as char else c
  }

  /** `s.toLowerCase()` on ASCII letters. */
  function Lower(s: string): (r: string)
    ensures |r| == |s|
    ensures forall i :: 0 <= i < |s| ==> r[i] == LowerChar(s[i])
  {
    seq(|s|, i requires 0 <= i < |s| => LowerChar(s[i]))
  }

  /** `s.toUpperCase()` on ASCII letters. */
  function Upper(s: string): (r: string)
    ensures |r| == |s|
    ensures forall i :: 0 <= i < |s| ==> r[i] == UpperChar(s[i])
  {
    seq(|s|, i requires 0 <= i < |s| => UpperChar(s[i]))
  }

  /** `t` occurs in `s` starting at index `i`. */
  ghost predicate OccursAt(s: string, t: string, i: int)
  {
    0 <= i && i + |t| <= |s| && s[i..i + |t|] == t
  }

  /** `s.includes(t)`. */
  function Includes(s: string, t: string): bool
    decreases |s|
  {
    if |t| > |s| then false
    else if s[..|t|] == t then true
    else Includes(s[1..], t)
  }

  /** `s.includes(t)` holds exactly when `t` occurs somewhere in `s`; the empty string occurs everywhere. */
  lemma {:induction false} IncludesMeaning(s: string, t: string)
    ensures Includes(s, t) <==> exists i :: OccursAt(s, t, i)
    ensures t == [] ==> Includes(s, t)
    decreases |s|
  {
    if |t| > |s| {
    } else if s[..|t|] == t {
      assert OccursAt(s, t, 0);
    } else {
      IncludesMeaning(s[1..], t);
      if Includes(s[1..], t) {
        var i :| OccursAt(s[1..], t, i);
        assert OccursAt(s, t, i + 1);
      }
      if exists i :: OccursAt(s, t, i) {
        var i :| OccursAt(s, t, i);
        assert s[0..|t|] == s[..|t|];
        assert i != 0;
        assert OccursAt(s[1..], t, i - 1);
      }
    }
  }

  /** `s.split(' ')`: the pieces between single spaces; always at least one piece. */
  function Split(s: string): (r: seq<string>)
    ensures |r| >= 1
  {
    if s == [] then [[]]
    else
      var rest := Split(s[1..]);
      if s[0] == ' ' then [[]] + rest else [[s[0]] + rest[0]] + rest[1..]
  }

  /** No piece of `split(' ')` contains a space. */
  lemma {:induction false} SplitPieces(s: string)
    ensures forall i :: 0 <= i < |Split(s)| ==> ' ' !in Split(s)[i]
  {
    if s != [] {
      SplitPieces(s[1..]);
      var rest := Split(s[1..]);
      if s[0] != ' ' {
        assert ' ' !in [s[0]] + rest[0];
      }
    }
  }

  /** `ws.join(' ')`. */
  function Join(ws: seq<string>): string
    requires |ws| >= 1
  {
    if |ws| == 1 then ws[0] else ws[0] + " " + Join(ws[1..])
  }

  /** Splitting at spaces loses nothing: joining the pieces with spaces gives the string back. */
  lemma {:induction false} SplitJoin(s: string)
    ensures Join(Split(s)) == s
  {
    if s != [] {
      SplitJoin(s[1..]);
      var rest := Split(s[1..]);
      if s[0] == ' ' {
        assert Join([[]] + rest) == [] + " " + Join(rest);
      } else if |rest| == 1 {
        assert Join(Split(s)) == [s[0]] + rest[0];
      } else {
        assert ([[s[0]] + rest[0]] + rest[1..])[1..] == rest[1..];
        assert Join(Split(s)) == [s[0]] + rest[0] + " " + Join(rest[1..]);
      }
    }
  }

  /** Splitting at a space between two parts splits each part separately. */
  lemma {:induction false} SplitAtSpace(a: string, b: string)
    ensures Split(a + " " + b) == Split(a) + Split(b)
  {
    if a == [] {
      assert a + " " + b == [' '] + b;
      SplitCons(' ', b);
    } else {
      var tail := a[1..] + " " + b;
      SplitAtSpace(a[1..], b);
      assert [a[0]] + a[1..] == a;
      assert [a[0]] + tail == a + " " + b;
      SplitCons(a[0], tail);
      SplitCons(a[0], a[1..]);
      PiecesCons(a[0], Split(a[1..]), Split(b));
    }
  }

  /** The pieces one character adds to the front, as `SplitCons` gives them, can be taken before or after appending `more`. */
  lemma PiecesCons(c: char, ra: seq<string>, more: seq<string>)
    requires |ra| >= 1
    ensures (if c == ' ' then [[]] + (ra + more) else [[c] + (ra + more)[0]] + (ra + more)[1..]) ==
      (if c == ' ' then [[]] + ra else [[c] + ra[0]] + ra[1..]) + more
  {
    if c != ' ' {
      assert (ra + more)[0] == ra[0] && (ra + more)[1..] == ra[1..] + more;
    }
  }

  /** One step of `split(' ')`: a space starts a new piece, any other character joins the first piece. */
  lemma SplitCons(c: char, rest: string)
    ensures Split([c] + rest) ==
      if c == ' ' then [[]] + Split(rest) else [[c] + Split(rest)[0]] + Split(rest)[1..]
  {
    assert ([c] + rest)[0] == c && ([c] + rest)[1..] == rest;
  }

  /** `ws.map(n => n[0]).join('')`: an empty piece's `n[0]` is `undefined`, which `join` renders as nothing. */
  function FirstLetters(ws: seq<string>): (r: string)
    ensures |r| <= |ws|
  {
    if ws == [] then []
    else (if ws[0] == [] then [] else [ws[0][0]]) + FirstLetters(ws[1..])
  }

  lemma {:induction false} FirstLettersAppend(a: seq<string>, b: seq<string>)
    ensures FirstLetters(a + b) == FirstLetters(a) + FirstLetters(b)
  {
    if a == [] {
      assert a + b == b;
    } else {
      assert (a + b)[1..] == a[1..] + b;
      FirstLettersAppend(a[1..], b);
    }
  }

  /** The avatar initials: the upper-cased first character of every space-separated word. */
  function Initials(name: string): (r: string)
    ensures |r| <= |Split(name)|
    ensures forall i :: 0 <= i < |r| ==> !('a' <= r[i] <= 'z')
  {
    Upper(FirstLetters(Split(name)))
  }

  /** A name of two parts has the initials of the first followed by those of the second. */
  lemma InitialsOfTwoParts(a: string, b: string)
    ensures Initials(a + " " + b) == Initials(a) + Initials(b)
  {
    SplitAtSpace(a, b);
    FirstLettersAppend(Split(a), Split(b));
  }

  /** One word without spaces has a single initial, its upper-cased first letter. */
  lemma {:induction false} InitialsOfWord(w: string)
    requires w != [] && ' ' !in w
    ensures Initials(w) == [UpperChar(w[0])]
  {
    assert Split(w) == [w] by {
      SplitOfWord(w);
    }
  }

  lemma {:induction false} SplitOfWord(w: string)
    requires ' ' !in w
    ensures Split(w) == [w]
  {
    if w != [] {
      SplitOfWord(w[1..]);
      assert [w[0]] + w[1..] == w;
    }
  }
}
