/**
 * The two string routines of the roll-call window: the zero-padding of a
 * teacher id before it is shown (demo.py, scroll_names) and the whitespace
 * split that turns the shown label back into an id and a name (demo.py,
 * save_data, which calls Python's `str.split()` with no separator).
 */
module Text {

  /** Width every teacher id is padded to before it is shown (TEACHER_ID_LENGTH). */
  const TeacherIdLength: nat := 10

  /** `n` copies of the character '0'. */
  function Zeros(n: nat): string
  {
    seq(n, _ => '0')
  }

  /**
   * An id left-padded with '0' up to TeacherIdLength characters; an id that
   * is already that long or longer is left as it is.
   */
  function ZeroPad(id: string): string
  {
    if |id| < TeacherIdLength then Zeros(TeacherIdLength - |id|) + id else id
  }

  /**
   * Padding never truncates: the result is TeacherIdLength characters or the
   * id's own length if longer, it ends with the id, and everything before the
   * id is '0'.
   */
  lemma ZeroPadShape(id: string)
    ensures var r := ZeroPad(id);
      |r| == (if |id| < TeacherIdLength then TeacherIdLength else |id|) &&
      r[|r| - |id|..] == id &&
      forall i :: 0 <= i < |r| - |id| ==> r[i] == '0'
  {
  }

  /** The padding loop as the window runs it: prepend one '0' per missing character. */
  method PadId(id: string) returns (r: string)
    ensures r == ZeroPad(id)
  {
    r := id;
    if |id| < TeacherIdLength {
      for i := 0 to TeacherIdLength - |id|
        invariant r == Zeros(i) + id
      {
        assert "0" + (Zeros(i) + id) == Zeros(i + 1) + id by {
          assert "0" + Zeros(i) == Zeros(i + 1);
        }
        r := "0" + r;
      }
    }
  }

  /** Python's notion of whitespace (`str.isspace`), which `str.split()` splits on. */
  predicate IsSpace(c: char)
  {
    var n := c as int;
    (0x09 <= n <= 0x0D) || (0x1C <= n <= 0x20) || n == 0x85 || n == 0xA0 ||
    n == 0x1680 || (0x2000 <= n <= 0x200A) || n == 0x2028 || n == 0x2029 ||
    n == 0x202F || n == 0x205F || n == 0x3000
  }

  predicate NoSpace(s: string)
  {
    forall i :: 0 <= i < |s| ==> !IsSpace(s[i])
  }

  /** What `str.split()` can produce: a non-empty run of non-whitespace characters. */
  predicate IsToken(s: string)
  {
    s != [] && NoSpace(s)
  }

  /**
   * `str.split()` of `s`, where `word` holds the characters of the token
   * being read when `s` starts: runs of whitespace separate tokens, and
   * leading and trailing whitespace yield no empty tokens.
   */
  function SplitFrom(s: string, word: string): seq<string>
    decreases |s|
  {
    if s == [] then
      (if word == [] then [] else [word])
    else if IsSpace(s[0]) then
      (if word == [] then SplitFrom(s[1..], []) else [word] + SplitFrom(s[1..], []))
    else
      SplitFrom(s[1..], word + [s[0]])
  }

  /** Python's `s.split()`. */
  function Split(s: string): seq<string>
  {
    SplitFrom(s, [])
  }

  /** Every token read is non-empty and free of whitespace. */
  lemma {:induction false} SplitFromTokens(s: string, word: string)
    requires NoSpace(word)
    ensures forall k :: 0 <= k < |SplitFrom(s, word)| ==> IsToken(SplitFrom(s, word)[k])
    decreases |s|
  {
    if s == [] {
    } else if IsSpace(s[0]) {
      SplitFromTokens(s[1..], []);
    } else {
      SplitFromTokens(s[1..], word + [s[0]]);
    }
  }

  /** `str.split()` yields no empty token and no token holding whitespace. */
  lemma SplitTokens(s: string)
    ensures forall k :: 0 <= k < |Split(s)| ==> IsToken(Split(s)[k])
  {
    SplitFromTokens(s, []);
  }

  /** The tokens separated by one space each, as an f-string `f'{a} {b}'` writes two. */
  function Join(ts: seq<string>): string
  {
    if ts == [] then "" else if |ts| == 1 then ts[0] else ts[0] + " " + Join(ts[1..])
  }

  /** Reading a whitespace-free stretch only extends the current token. */
  lemma {:induction false} SplitFromWord(w: string, rest: string, word: string)
    requires NoSpace(w) && NoSpace(word)
    ensures SplitFrom(w + rest, word) == SplitFrom(rest, word + w)
    decreases |w|
  {
    if w != [] {
      assert (w + rest)[0] == w[0];
      assert (w + rest)[1..] == w[1..] + rest;
      assert word + [w[0]] + w[1..] == word + w;
      SplitFromWord(w[1..], rest, word + [w[0]]);
    } else {
      assert w + rest == rest;
      assert word + w == word;
    }
  }

  /** Splitting tokens joined by single spaces gives the tokens back. */
  lemma {:induction false} SplitJoin(ts: seq<string>)
    requires forall k :: 0 <= k < |ts| ==> IsToken(ts[k])
    ensures Split(Join(ts)) == ts
  {
    if ts == [] {
    } else if |ts| == 1 {
      SplitFromWord(ts[0], [], []);
      assert ts[0] + [] == ts[0];
      assert [] + ts[0] == ts[0];
    } else {
      var rest := " " + Join(ts[1..]);
      assert Join(ts) == ts[0] + rest;
      SplitFromWord(ts[0], rest, []);
      assert [] + ts[0] == ts[0];
      assert rest[0] == ' ' && rest[1..] == Join(ts[1..]);
      SplitJoin(ts[1..]);
      assert ts == [ts[0]] + ts[1..];
    }
  }
}
