/** The JavaScript string operations the modelled code relies on, on `seq<char>`. */
module Text {

  predicate IsUpper(c: char) {
    'A' <= c <= 'Z'
  }

  function LowerChar(c: char): char {
    if IsUpper(c) then (c as int + 32) as char else c
  }

  /** `String.prototype.toLowerCase`, for the ASCII letters only. */
  function Lower(s: string): (r: string)
    ensures |r| == |s|
    ensures forall i :: 0 <= i < |s| ==> r[i] == LowerChar(s[i])
  {
    if s == [] then [] else [LowerChar(s[0])] + Lower(s[1..])
  }

  /** Lower-casing works character by character, so it distributes over concatenation. */
  lemma LowerAppend(a: string, b: string)
    ensures Lower(a + b) == Lower(a) + Lower(b)
  {
  }

  /** `t` occurs in `s` starting at index `i`. */
  predicate OccursAt(s: string, t: string, i: int) {
    0 <= i <= |s| - |t| && s[i..i + |t|] == t
  }

  /** `t` occurs somewhere in `s`. */
  ghost predicate Occurs(s: string, t: string) {
    exists i :: OccursAt(s, t, i)
  }

  /** `String.prototype.includes`: a scan from the left for an occurrence of `t`. */
  function Contains(s: string, t: string): (r: bool)
    ensures r <==> Occurs(s, t)
    decreases |s|
  {
    if |t| > |s| then false
    else if s[..|t|] == t then assert OccursAt(s, t, 0); true
    else OccursShift(s, t); Contains(s[1..], t)
  }

  /** When `t` is not at the front of `s`, it occurs in `s` exactly when it occurs in `s[1..]`. */
  lemma OccursShift(s: string, t: string)
    requires |t| <= |s| && s[..|t|] != t
    ensures Occurs(s, t) <==> Occurs(s[1..], t)
  {
    forall i | OccursAt(s[1..], t, i) ensures OccursAt(s, t, i + 1) {
      assert s[1..][i..i + |t|] == s[i + 1..i + 1 + |t|];
    }
    forall i | OccursAt(s, t, i) ensures i > 0 && OccursAt(s[1..], t, i - 1) {
      assert s[1..][i - 1..i - 1 + |t|] == s[i..i + |t|];
    }
  }

  /** The summed lengths of the parts. */
  function TotalLength(parts: seq<string>): nat {
    if parts == [] then 0 else TotalLength(parts[..|parts| - 1]) + |parts[|parts| - 1]|
  }

  /**
    `Array.prototype.toString` on an array of strings: the elements separated by `sep`, so the
    text holds every part and one separator between each two neighbours.
   */
  function Join(parts: seq<string>, sep: string): (r: string)
    ensures parts == [] ==> r == ""
    ensures |parts| == 1 ==> r == parts[0]
    ensures parts != [] ==> |r| == TotalLength(parts) + (|parts| - 1) * |sep|
    ensures forall k :: 0 <= k < |parts| ==> Occurs(r, parts[k])
  {
    if |parts| == 0 then ""
    else if |parts| == 1 then assert OccursAt(parts[0], parts[0], 0); parts[0]
    else
      var front := parts[..|parts| - 1];
      var last := parts[|parts| - 1];
      var j := Join(front, sep);
      JoinExtends(j, sep + last, front, parts);
      assert j + sep + last == j + (sep + last);
      assert (|parts| - 1) * |sep| == (|parts| - 2) * |sep| + |sep|;
      j + sep + last
  }

  /** Appending keeps every earlier occurrence and adds the new last part at the end. */
  lemma JoinExtends(j: string, tail: string, front: seq<string>, parts: seq<string>)
    requires parts != [] && front == parts[..|parts| - 1]
    requires |parts[|parts| - 1]| <= |tail| && tail[|tail| - |parts[|parts| - 1]|..] == parts[|parts| - 1]
    requires forall k :: 0 <= k < |front| ==> Occurs(j, front[k])
    ensures forall k :: 0 <= k < |parts| ==> Occurs(j + tail, parts[k])
  {
    var r := j + tail;
    var last := parts[|parts| - 1];
    forall k | 0 <= k < |parts| ensures Occurs(r, parts[k]) {
      if k < |front| {
        assert parts[k] == front[k];
        var i :| OccursAt(j, front[k], i);
        assert r[i..i + |front[k]|] == j[i..i + |front[k]|];
        assert OccursAt(r, parts[k], i);
      } else {
        assert r[|r| - |last|..] == tail[|tail| - |last|..];
        assert OccursAt(r, parts[k], |r| - |last|);
      }
    }
  }

  /**
    Joining a concatenation joins the two halves with one separator between them, so the parts
    appear in their order with `sep` between each two neighbours.
   */
  lemma {:induction false} JoinAppend(a: seq<string>, b: seq<string>, sep: string)
    requires a != [] && b != []
    ensures Join(a + b, sep) == Join(a, sep) + sep + Join(b, sep)
    decreases |b|
  {
    var front, last := b[..|b| - 1], b[|b| - 1];
    assert (a + b)[..|a + b| - 1] == a + front;
    if front == [] {
      assert a + front == a;
    } else {
      JoinAppend(a, front, sep);
      var x, y := Join(a, sep), Join(front, sep);
      assert (x + sep + y) + sep + last == x + sep + (y + sep + last);
    }
  }

  /** The text a run of `text += chunk` statements builds, oldest chunk first. */
  function Concat(parts: seq<string>): (r: string)
    ensures |r| == TotalLength(parts)
  {
    if parts == [] then "" else Concat(parts[..|parts| - 1]) + parts[|parts| - 1]
  }

  /** Accumulating is independent of how the text is split into reads. */
  lemma {:induction false} ConcatAppend(a: seq<string>, b: seq<string>)
    ensures Concat(a + b) == Concat(a) + Concat(b)
    decreases |b|
  {
    if b == [] {
      assert a + b == a;
    } else {
      var front := b[..|b| - 1];
      assert (a + b)[..|a + b| - 1] == a + front;
      ConcatAppend(a, front);
    }
  }
}
