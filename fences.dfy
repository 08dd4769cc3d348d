/** Markdown code fences, which the language model wraps around the JSON it
    returns, and where a search for a fence stops in text free of backticks. */
module Fences {
  import opened PyText

  const JsonFence := "```json"
  const Fence := "```"

  predicate NoBacktick(b: string) {
    forall i :: 0 <= i < |b| ==> b[i] != '`'
  }

  /** The first occurrence of a fence in `b + "```"` is the appended one. */
  lemma FenceAtEnd(b: string)
    requires NoBacktick(b)
    ensures Find(b + Fence, Fence) == |b|
    ensures !Contains(b + Fence, JsonFence)
  {
    var u := b + Fence;
    assert OccursAt(u, Fence, |b|);
    forall i | 0 <= i < |b| ensures !OccursAt(u, Fence, i) {
      assert u[i] == b[i];
    }
    forall i | 0 <= i < |b| ensures !OccursAt(u, JsonFence, i) {
      if i + |JsonFence| <= |u| {
        assert u[i..i + |JsonFence|][0] == b[i];
      }
    }
  }

  /** The first fence of `t`, if there is one, is a run of exactly three
      backticks: no fourth one follows it. */
  predicate ClosedByFence(t: string) {
    var f := Find(t, Fence);
    f < 0 || f + |Fence| == |t| || (f + |Fence| < |t| && t[f + |Fence|] != '`')
  }

  /** A json fence starts with a fence. */
  lemma JsonFenceOpensFence(t: string, j: int)
    requires OccursAt(t, JsonFence, j)
    ensures OccursAt(t, Fence, j)
  {
    assert t[j..j + |Fence|] == t[j..j + |JsonFence|][..|Fence|];
  }

  /** The occurrences in a prefix are those of the whole text that fit in it. */
  lemma PrefixOccurrence(t: string, n: nat, p: string, i: int)
    requires n <= |t|
    ensures OccursAt(t[..n], p, i) <==> i + |p| <= n && OccursAt(t, p, i)
  {
    if 0 <= i && i + |p| <= n {
      assert t[..n][i..i + |p|] == t[i..i + |p|];
    }
  }

  /** The characters of an occurrence are those of the text it matches. */
  lemma OccurrenceChar(s: string, p: string, i: int, k: nat)
    requires OccursAt(s, p, i) && k < |p|
    ensures s[i + k] == p[k]
  {
    assert s[i..i + |p|][k] == s[i + k];
  }

  /** A character that differs from the text's rules out an occurrence. */
  lemma Mismatch(s: string, p: string, i: nat, k: nat)
    requires k < |p| && i + k < |s| && s[i + k] != p[k]
    ensures !OccursAt(s, p, i)
  {
    if OccursAt(s, p, i) {
      OccurrenceChar(s, p, i, k);
    }
  }

  /** An occurrence with none before it is the one `find` reports. */
  lemma FirstOccurrence(s: string, p: string, f: nat)
    requires OccursAt(s, p, f)
    requires forall i :: 0 <= i < f ==> !OccursAt(s, p, i)
    ensures Find(s, p) == f
  {
  }

  /** The first fence of a text holding a json fence is that json fence's
      own, or ends before it, or runs on into it. */
  lemma FirstFenceOfJsonFence(t: string)
    requires Contains(t, JsonFence)
    ensures var j, f := Find(t, JsonFence), Find(t, Fence);
      0 <= f <= j && (f == j || f + |Fence| <= j || (f + |Fence| < |t| && t[f + |Fence|] == '`'))
  {
    var j, f := Find(t, JsonFence), Find(t, Fence);
    JsonFenceOpensFence(t, j);
    if f < j < f + |Fence| {
      OccurrenceChar(t, JsonFence, j, f + |Fence| - j);
    }
  }

  /** Cutting at the first json fence and then at the first fence is cutting
      at the first fence, unless that fence runs on into a json fence. */
  lemma CutTwice(t: string)
    ensures ClosedByFence(t) ==> Before(Before(t, JsonFence), Fence) == Before(t, Fence)
  {
    if ClosedByFence(t) && Contains(t, JsonFence) {
      var j, f := Find(t, JsonFence), Find(t, Fence);
      var u := t[..j];
      assert Before(t, JsonFence) == u;
      FirstFenceOfJsonFence(t);
      if f + |Fence| <= j {
        PrefixOccurrence(t, j, Fence, f);
        forall i | 0 <= i < f ensures !OccursAt(u, Fence, i) {
          PrefixOccurrence(t, j, Fence, i);
        }
        FirstOccurrence(u, Fence, f);
      } else {
        forall i | OccursAt(u, Fence, i) ensures false {
          PrefixOccurrence(t, j, Fence, i);
        }
      }
    }
  }

  /** A search from `start` for a text that begins with a backtick stops at
      its first occurrence after a backtick-free stretch of `n` characters. */
  lemma FindAfterStretch(s: string, p: string, start: nat, n: nat)
    requires p != [] && p[0] == '`'
    requires start + n <= |s| && OccursAt(s, p, start + n)
    requires forall i :: start <= i < start + n ==> s[i] != '`'
    ensures FindFrom(s, p, start) == start + n
  {
    OccurrenceHeads(s, p);
  }

  /** A search from `start` for a text that begins with a backtick finds
      nothing when no backtick follows `start`. */
  lemma FindNothingAfter(s: string, p: string, start: nat)
    requires p != [] && p[0] == '`'
    requires forall i :: start <= i < |s| ==> s[i] != '`'
    ensures FindFrom(s, p, start) == -1
  {
    OccurrenceHeads(s, p);
  }

  /** Every occurrence of `p` starts with the first character of `p`. */
  lemma OccurrenceHeads(s: string, p: string)
    requires p != []
    ensures forall i :: OccursAt(s, p, i) ==> s[i] == p[0]
  {
    forall i | OccursAt(s, p, i) ensures s[i] == p[0] {
      assert s[i..i + |p|][0] == s[i];
    }
  }
}
