/**
  The two JavaScript string operations the navigation script relies on:
  `String.prototype.includes` (substring containment) and
  `String.prototype.split('/')` followed by `Array.prototype.pop()`
  (the last '/'-separated segment of a path).
 */
module Text {

  /** A slash, the only separator the script splits on. */
  const Slash: char := '/'

  /** `sub` occurs in `s` starting at index `i`. */
  ghost predicate OccursAt(s: string, sub: string, i: int)
  {
    0 <= i && i + |sub| <= |s| && s[i..i + |sub|] == sub
  }

  /** Reference meaning of containment: some index where `sub` occurs. */
  ghost predicate Occurs(s: string, sub: string)
  {
    exists i :: OccursAt(s, sub, i)
  }

  /** `s.includes(sub)`: scans the start positions of `s` from left to right. */
  function Contains(s: string, sub: string): (found: bool)
    decreases |s|
  {
    if |sub| > |s| then false
    else if s[..|sub|] == sub then true
    else Contains(s[1..], sub)
  }

  /** The scan answers exactly the reference question, in both directions. */
  lemma {:induction false} ContainsMeansOccurs(s: string, sub: string)
    ensures Contains(s, sub) <==> Occurs(s, sub)
    decreases |s|
  {
    if |sub| > |s| {
    } else if s[..|sub|] == sub {
      assert OccursAt(s, sub, 0);
    } else {
      ContainsMeansOccurs(s[1..], sub);
      if Occurs(s[1..], sub) {
        var j :| OccursAt(s[1..], sub, j);
        SliceOfTail(s, j, |sub|);
        assert OccursAt(s, sub, j + 1);
      }
      if Occurs(s, sub) {
        var i :| OccursAt(s, sub, i);
        assert i != 0;
        SliceOfTail(s, i - 1, |sub|);
        assert OccursAt(s[1..], sub, i - 1);
      }
    }
  }

  /** Slicing the tail of `s` is slicing `s` one position further on. */
  lemma SliceOfTail(s: string, j: nat, n: nat)
    requires |s| > 0 && j + n <= |s| - 1
    ensures s[1..][j..j + n] == s[j + 1..j + 1 + n]
  {
  }

  /**
    `s.split('/')`: the pieces between slashes, in order. Like JavaScript,
    the empty string splits into one empty piece and every slash separates
    two pieces, so a leading or trailing slash yields an empty piece.
   */
  function Split(s: string): (parts: seq<string>)
    ensures |parts| >= 1
    ensures forall k :: 0 <= k < |parts| ==> Slash !in parts[k]
  {
    if |s| == 0 then [""]
    else
      var rest := Split(s[1..]);
      if s[0] == Slash then [""] + rest
      else [[s[0]] + rest[0]] + rest[1..]
  }

  /** `parts.join('/')`. */
  function Join(parts: seq<string>): (s: string)
  {
    if |parts| == 0 then ""
    else if |parts| == 1 then parts[0]
    else parts[0] + [Slash] + Join(parts[1..])
  }

  /** Joining the pieces of a split gives back the original string. */
  lemma {:induction false} JoinSplit(s: string)
    ensures Join(Split(s)) == s
    decreases |s|
  {
    if |s| > 0 {
      var rest := Split(s[1..]);
      JoinSplit(s[1..]);
      if s[0] == Slash {
        assert Split(s) == [""] + rest;
        assert ([""] + rest)[1..] == rest;
      } else {
        var parts := [[s[0]] + rest[0]] + rest[1..];
        assert Split(s) == parts;
        if |rest| == 1 {
          assert parts == [[s[0]] + rest[0]];
        } else {
          assert parts[1..] == rest[1..];
          assert Join(rest) == rest[0] + [Slash] + Join(rest[1..]);
          assert Join(parts) == [s[0]] + rest[0] + [Slash] + Join(rest[1..]);
        }
      }
    }
  }

  /** Splitting a join of slash-free pieces gives back the pieces. */
  lemma {:induction false} SplitJoin(parts: seq<string>)
    requires |parts| >= 1
    requires forall k :: 0 <= k < |parts| ==> Slash !in parts[k]
    ensures Split(Join(parts)) == parts
    decreases |parts|, |parts[0]|
  {
    var head := parts[0];
    if |head| == 0 {
      if |parts| > 1 {
        SplitJoin(parts[1..]);
        var s := Join(parts);
        assert s == [Slash] + Join(parts[1..]);
        assert s[1..] == Join(parts[1..]);
        assert [""] + parts[1..] == parts;
      }
    } else {
      var parts' := [head[1..]] + parts[1..];
      assert forall k :: 0 <= k < |parts'| ==> Slash !in parts'[k] by {
        forall k | 0 <= k < |parts'|
          ensures Slash !in parts'[k]
        {
          if k == 0 {
            assert forall c :: c in head[1..] ==> c in head;
          } else {
            assert parts'[k] == parts[k];
          }
        }
      }
      SplitJoin(parts');
      var s := Join(parts);
      if |parts| == 1 {
        assert s == head;
        assert Join(parts') == head[1..];
      } else {
        assert s == head + [Slash] + Join(parts[1..]);
        assert Join(parts') == head[1..] + [Slash] + Join(parts'[1..]);
        assert parts'[1..] == parts[1..];
      }
      assert s[0] == head[0] && s[1..] == Join(parts');
      assert head[0] != Slash by { assert head[0] in head; }
      assert [head[0]] + head[1..] == head;
      assert [head] + parts[1..] == parts;
    }
  }

  /** `s.split('/').pop()`: the last piece of the split. */
  function LastSegment(s: string): (seg: string)
  {
    var parts := Split(s);
    parts[|parts| - 1]
  }

  /**
    Reference meaning of the last segment: a slash-free suffix of `s` that
    is either all of `s` or immediately preceded by a slash.
   */
  ghost predicate IsLastSegment(s: string, seg: string)
  {
    && |seg| <= |s|
    && s[|s| - |seg|..] == seg
    && Slash !in seg
    && (|seg| < |s| ==> s[|s| - |seg| - 1] == Slash)
  }

  /** A string splits into a single piece exactly when it has no slash. */
  lemma {:induction false} SplitSingleIffNoSlash(s: string)
    ensures |Split(s)| == 1 <==> Slash !in s
    decreases |s|
  {
    if |Split(s)| == 1 {
      JoinSplit(s);
    }
    if |s| > 0 && Slash !in s {
      SplitSingleIffNoSlash(s[1..]);
      assert forall c :: c in s[1..] ==> c in s;
    }
  }

  /** How the last piece of a split relates to the last piece of the tail's split. */
  lemma LastSegmentOfCons(s: string)
    requires |s| > 0
    ensures s[0] == Slash ==> LastSegment(s) == LastSegment(s[1..])
    ensures s[0] != Slash && |Split(s[1..])| > 1 ==> LastSegment(s) == LastSegment(s[1..])
    ensures s[0] != Slash && |Split(s[1..])| == 1 ==> LastSegment(s) == s
  {
    var rest := Split(s[1..]);
    if s[0] == Slash {
      assert Split(s) == [""] + rest;
    } else if |rest| == 1 {
      JoinSplit(s[1..]);
      assert Split(s) == [[s[0]] + s[1..]];
      assert [s[0]] + s[1..] == s;
    } else {
      assert Split(s) == [[s[0]] + rest[0]] + rest[1..];
    }
  }

  /** The popped piece is the final path component. */
  lemma {:induction false} LastSegmentIsFinalComponent(s: string)
    ensures IsLastSegment(s, LastSegment(s))
    decreases |s|
  {
    if |s| > 0 {
      LastSegmentIsFinalComponent(s[1..]);
      LastSegmentOfCons(s);
      var r := LastSegment(s[1..]);
      if LastSegment(s) == s {
        assert Slash !in s by {
          assert s == Join(Split(s)) by { JoinSplit(s); }
          assert Split(s) == [s];
        }
      } else {
        assert LastSegment(s) == r;
        assert s[1..][|s[1..]| - |r|..] == s[|s| - |r|..];
        if s[0] != Slash {
          SplitSingleIffNoSlash(s[1..]);
          assert |r| < |s[1..]|;
        }
      }
    }
  }

  /** The reference meaning pins down a single segment. */
  lemma LastSegmentUnique(s: string, a: string, b: string)
    requires IsLastSegment(s, a) && IsLastSegment(s, b)
    ensures a == b
  {
  }

  /** The segment after a final slash is the last segment. */
  lemma LastSegmentAfterSlash(dir: string, name: string)
    requires Slash !in name
    ensures LastSegment(dir + [Slash] + name) == name
  {
    var s := dir + [Slash] + name;
    LastSegmentIsFinalComponent(s);
    assert s[|s| - |name|..] == name;
    assert s[|s| - |name| - 1] == Slash;
    LastSegmentUnique(s, LastSegment(s), name);
  }

  /** A path without a slash is its own last segment. */
  lemma LastSegmentOfPlainName(s: string)
    requires Slash !in s
    ensures LastSegment(s) == s
  {
    LastSegmentIsFinalComponent(s);
    assert s[|s| - |s|..] == s;
    LastSegmentUnique(s, LastSegment(s), s);
  }

  /** A path ending in a slash has an empty last segment. */
  lemma LastSegmentOfDirectory(s: string)
    requires |s| > 0 && s[|s| - 1] == Slash
    ensures LastSegment(s) == ""
  {
    LastSegmentIsFinalComponent(s);
  }
}
