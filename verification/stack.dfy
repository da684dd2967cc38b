/**
 The normalisation applied to a project's `stack` parameter before it is
 stored: every space is removed, then the text is split at every comma.
 Empty segments are kept, exactly as Python's `str.split(',')` keeps them.
 */
module Stack {

  /** Number of occurrences of `c` in `s`. */
  function Count(c: char, s: string): nat
  {
    if |s| == 0 then 0 else (if s[0] == c then 1 else 0) + Count(c, s[1..])
  }

  /** `s.replace(' ', '')`. */
  function RemoveSpaces(s: string): (r: string)
    ensures ' ' !in r
    ensures |r| == |s| - Count(' ', s)
  {
    if |s| == 0 then ""
    else
      var tail := RemoveSpaces(s[1..]);
      var r := (if s[0] == ' ' then "" else [s[0]]) + tail;
      assert s[0] == ' ' ==> r == tail;
      assert s[0] != ' ' ==> r[1..] == tail;
      r
  }

  /** Removing spaces keeps every other character as often as it occurred. */
  lemma {:induction false} RemoveSpacesCount(c: char, s: string)
    requires c != ' '
    ensures Count(c, RemoveSpaces(s)) == Count(c, s)
    decreases |s|
  {
    if |s| > 0 {
      RemoveSpacesCount(c, s[1..]);
      var r := RemoveSpaces(s);
      if s[0] != ' ' {
        assert r[0] == s[0] && r[1..] == RemoveSpaces(s[1..]);
      } else {
        assert r == RemoveSpaces(s[1..]);
      }
    }
  }

  /** `s.split(sep)`: the maximal segments of `s` between occurrences of `sep`. */
  function Split(s: string, sep: char): (parts: seq<string>)
    ensures |parts| == Count(sep, s) + 1
    ensures forall i :: 0 <= i < |parts| ==> sep !in parts[i]
  {
    if |s| == 0 then [""]
    else
      var rest := Split(s[1..], sep);
      if s[0] == sep then [""] + rest
      else [[s[0]] + rest[0]] + rest[1..]
  }

  /** `sep.join(parts)`. */
  function Join(parts: seq<string>, sep: char): string
    requires |parts| > 0
  {
    if |parts| == 1 then parts[0] else parts[0] + [sep] + Join(parts[1..], sep)
  }

  /** `stack.replace(' ', '').split(',')`. */
  function Normalize(stack: string): (parts: seq<string>)
    ensures |parts| == Count(',', stack) + 1
    ensures forall i :: 0 <= i < |parts| ==> ' ' !in parts[i] && ',' !in parts[i]
    ensures Join(parts, ',') == RemoveSpaces(stack)
  {
    var stripped := RemoveSpaces(stack);
    RemoveSpacesCount(',', stack);
    SplitAvoids(stripped, ',', ' ');
    JoinSplit(stripped, ',');
    Split(stripped, ',')
  }

  /** Removing spaces distributes over concatenation: it keeps the order of what it keeps. */
  lemma {:induction false} RemoveSpacesAppend(a: string, b: string)
    ensures RemoveSpaces(a + b) == RemoveSpaces(a) + RemoveSpaces(b)
    decreases |a|
  {
    if |a| == 0 {
      assert a + b == b;
    } else {
      assert (a + b)[1..] == a[1..] + b;
      RemoveSpacesAppend(a[1..], b);
    }
  }

  /** A text without spaces is left exactly as it is. */
  lemma {:induction false} RemoveSpacesKeeps(s: string)
    requires ' ' !in s
    ensures RemoveSpaces(s) == s
    decreases |s|
  {
    if |s| > 0 {
      RemoveSpacesKeeps(s[1..]);
    }
  }

  /** Removing spaces twice is the same as removing them once. */
  lemma RemoveSpacesIdempotent(s: string)
    ensures RemoveSpaces(RemoveSpaces(s)) == RemoveSpaces(s)
  {
    RemoveSpacesKeeps(RemoveSpaces(s));
  }

  /** A character absent from the input is absent from every segment. */
  lemma {:induction false} SplitAvoids(s: string, sep: char, c: char)
    requires c !in s
    ensures forall i :: 0 <= i < |Split(s, sep)| ==> c !in Split(s, sep)[i]
    decreases |s|
  {
    if |s| > 0 {
      assert c !in s[1..] by {
        forall k | 0 <= k < |s[1..]| ensures s[1..][k] != c {
          assert s[1..][k] == s[k + 1];
        }
      }
      SplitAvoids(s[1..], sep, c);
    }
  }

  /** Prefixing the first part with one character prefixes the joined text with it. */
  lemma JoinConsHead(c: char, parts: seq<string>, sep: char)
    requires |parts| > 0
    ensures Join([[c] + parts[0]] + parts[1..], sep) == [c] + Join(parts, sep)
  {
    var q := [[c] + parts[0]] + parts[1..];
    assert q[1..] == parts[1..];
  }

  /** Joining the segments with the separator gives back the text that was split. */
  lemma {:induction false} JoinSplit(s: string, sep: char)
    ensures Join(Split(s, sep), sep) == s
    decreases |s|
  {
    if |s| > 0 {
      var rest := Split(s[1..], sep);
      JoinSplit(s[1..], sep);
      if s[0] == sep {
        var q := [""] + rest;
        assert q[1..] == rest;
        assert Join(q, sep) == "" + [sep] + Join(rest, sep);
      } else {
        JoinConsHead(s[0], rest, sep);
      }
      assert s == [s[0]] + s[1..];
    }
  }

  /** A word free of the separator, followed by more text, becomes the head of the first segment. */
  lemma {:induction false} SplitWordPrefix(w: string, rest: string, sep: char)
    requires sep !in w
    ensures Split(w + rest, sep) == [w + Split(rest, sep)[0]] + Split(rest, sep)[1..]
    decreases |w|
  {
    if |w| == 0 {
      assert w + rest == rest;
      var parts := Split(rest, sep);
      assert w + parts[0] == parts[0];
      assert parts == [parts[0]] + parts[1..];
    } else {
      var t := w + rest;
      assert t[1..] == w[1..] + rest;
      assert sep !in w[1..] by {
        forall k | 0 <= k < |w[1..]| ensures w[1..][k] != sep {
          assert w[1..][k] == w[k + 1];
        }
      }
      SplitWordPrefix(w[1..], rest, sep);
      assert [w[0]] + (w[1..] + Split(rest, sep)[0]) == w + Split(rest, sep)[0];
    }
  }

  /** Splitting a join of separator-free parts recovers the parts. */
  lemma {:induction false} SplitJoin(parts: seq<string>, sep: char)
    requires |parts| > 0
    requires forall i :: 0 <= i < |parts| ==> sep !in parts[i]
    ensures Split(Join(parts, sep), sep) == parts
    decreases |parts|
  {
    if |parts| == 1 {
      SplitWordPrefix(parts[0], "", sep);
      assert parts[0] + "" == parts[0];
    } else {
      var tail := Join(parts[1..], sep);
      SplitJoin(parts[1..], sep);
      var t := [sep] + tail;
      assert t[1..] == tail;
      assert Split(t, sep) == [""] + parts[1..];
      assert parts[0] + [sep] + tail == parts[0] + t;
      SplitWordPrefix(parts[0], t, sep);
      assert parts[0] + "" == parts[0];
      assert parts == [parts[0]] + parts[1..];
    }
  }

  /** Worked cases: an empty stack is one empty segment, and empty segments survive. */
  lemma NormalizeKeepsEmptySegments()
    ensures Normalize("") == [""]
    ensures Normalize("a,,b") == ["a", "", "b"]
  {
    var parts := ["a", "", "b"];
    assert parts[1..] == ["", "b"] && parts[1..][1..] == ["b"];
    assert Join(parts, ',') == "a,,b";
    SplitJoin(parts, ',');
    RemoveSpacesKeeps("a,,b");
  }

  /** Worked case: spaces on either side of an item vanish. */
  lemma NormalizeDropsSpaces()
    ensures Normalize("a, b ,c") == ["a", "b", "c"]
  {
    StripABC();
    SplitABC();
  }

  lemma StripABC()
    ensures RemoveSpaces("a, b ,c") == "a,b,c"
  {
    assert "a, b ,c" == ("a," + " " + "b") + ("" + " " + ",c");
    RemoveSpacesAppend("a," + " " + "b", "" + " " + ",c");
    RemoveSpaceBetween("a,", "b");
    RemoveSpaceBetween("", ",c");
    assert "a," + "b" + ("" + ",c") == "a,b,c";
  }

  /** One space between two space-free texts disappears. */
  lemma RemoveSpaceBetween(a: string, b: string)
    requires ' ' !in a && ' ' !in b
    ensures RemoveSpaces(a + " " + b) == a + b
  {
    RemoveSpacesAppend(a + " ", b);
    RemoveSpacesAppend(a, " ");
    RemoveSpacesKeeps(a);
    RemoveSpacesKeeps(b);
    assert RemoveSpaces(" ") == "";
    assert a + "" == a;
  }

  lemma SplitABC()
    ensures Split("a,b,c", ',') == ["a", "b", "c"]
  {
    var abc := ["a", "b", "c"];
    assert abc[1..] == ["b", "c"] && abc[1..][1..] == ["c"];
    assert Join(abc, ',') == "a,b,c";
    SplitJoin(abc, ',');
  }

  /** Worked case: the stack of a two-language project. */
  lemma NormalizeTwoItems()
    ensures Normalize("go, rust") == ["go", "rust"]
  {
    StripGoRust();
    SplitGoRust();
  }

  lemma StripGoRust()
    ensures RemoveSpaces("go, rust") == "go,rust"
  {
    assert "go, rust" == "go," + " " + "rust";
    RemoveSpaceBetween("go,", "rust");
    assert "go," + "rust" == "go,rust";
  }

  lemma SplitGoRust()
    ensures Split("go,rust", ',') == ["go", "rust"]
  {
    var gr := ["go", "rust"];
    assert gr[1..] == ["rust"];
    assert Join(gr, ',') == "go,rust";
    SplitJoin(gr, ',');
  }
}
