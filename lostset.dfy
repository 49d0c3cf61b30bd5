/**
 * The lost-vnode set: Ruby's Array#| (get_lost_vnodes, recoverlost_lib.rb
 * lines 82-88) and the reply parse of get_history_of_lost (lines 90-99).
 */
module LostSet {
  import opened Wrappers
  import opened Text

  predicate Distinct<T(==)>(s: seq<T>) {
    forall i, j :: 0 <= i < j < |s| ==> s[i] != s[j]
  }

  /** Array#uniq: the first occurrence of each element, in the order of s. */
  function Dedup<T(==)>(s: seq<T>): seq<T> {
    if s == [] then []
    else
      var d := Dedup(s[..|s| - 1]);
      if s[|s| - 1] in d then d else d + [s[|s| - 1]]
  }

  /** Array#|: the union of a and b without duplicates, first occurrences first. */
  function Union<T(==)>(a: seq<T>, b: seq<T>): seq<T> {
    Dedup(a + b)
  }

  /** Dedup keeps exactly the elements of s, each once. */
  lemma {:induction false} DedupMembers<T>(s: seq<T>)
    ensures forall x :: x in Dedup(s) <==> x in s
    ensures Distinct(Dedup(s))
  {
    if s != [] {
      var p := s[..|s| - 1];
      DedupMembers(p);
      assert s == p + [s[|s| - 1]];
    }
  }

  lemma DedupElement<T>(s: seq<T>, i: int)
    requires 0 <= i < |Dedup(s)|
    ensures Dedup(s)[i] in s
  {
    DedupMembers(s);
    assert Dedup(s)[i] in Dedup(s);
  }

  lemma {:induction false} DedupDistinct<T>(s: seq<T>)
    requires Distinct(s)
    ensures Dedup(s) == s
  {
    if s != [] {
      var p := s[..|s| - 1];
      assert Distinct(p);
      DedupDistinct(p);
      assert s[|s| - 1] !in p;
      assert p + [s[|s| - 1]] == s;
    }
  }

  /** Dedup one element at a time from the end. */
  lemma DedupLast<T>(s: seq<T>, x: T)
    ensures Dedup(s + [x]) == if x in s then Dedup(s) else Dedup(s) + [x]
  {
    assert (s + [x])[..|s|] == s;
    DedupMembers(s);
  }

  /** Appending never disturbs what Dedup already kept. */
  lemma {:induction false} DedupExtends<T>(s: seq<T>, t: seq<T>)
    ensures |Dedup(s)| <= |Dedup(s + t)| && Dedup(s + t)[..|Dedup(s)|] == Dedup(s)
  {
    if t == [] {
      assert s + t == s;
    } else {
      var t' := t[..|t| - 1];
      var x := t[|t| - 1];
      DedupExtends(s, t');
      assert s + t == (s + t') + [x];
      DedupLast(s + t', x);
    }
  }

  lemma {:induction false} DedupAppendOne<T>(s: seq<T>, k: T)
    requires Distinct(s)
    ensures Dedup(s + [k]) == if k in s then s else s + [k]
  {
    DedupDistinct(s);
    DedupLast(s, k);
  }

  lemma {:induction false} DedupPrefix<T>(a: seq<T>, b: seq<T>)
    ensures Dedup(Dedup(a) + b) == Dedup(a + b)
  {
    if b == [] {
      assert a + b == a;
      assert Dedup(a) + b == Dedup(a);
      DedupMembers(a);
      DedupDistinct(Dedup(a));
    } else {
      var b' := b[..|b| - 1];
      var x := b[|b| - 1];
      DedupPrefix<T>(a, b');
      assert Dedup(a) + b == (Dedup(a) + b') + [x];
      assert a + b == (a + b') + [x];
      DedupLast(Dedup(a) + b', x);
      DedupLast(a + b', x);
      DedupMembers(a);
    }
  }

  /**
   * The union keeps the base list in front (deduplicated) and then the
   * elements of the other list that are not in it; every element of either
   * appears, none twice.
   */
  lemma UnionBaseFirst<T>(a: seq<T>, b: seq<T>)
    ensures |Dedup(a)| <= |Union(a, b)| && Union(a, b)[..|Dedup(a)|] == Dedup(a)
    ensures Distinct(a) ==> Dedup(a) == a
    ensures forall i :: |Dedup(a)| <= i < |Union(a, b)| ==> Union(a, b)[i] in b && Union(a, b)[i] !in a
    ensures forall x :: x in Union(a, b) <==> x in a || x in b
    ensures Distinct(Union(a, b))
  {
    DedupExtends(a, b);
    DedupMembers(a + b);
    DedupMembers(a);
    var u := Union(a, b);
    var d := Dedup(a);
    forall i | |d| <= i < |u|
      ensures u[i] in b && u[i] !in a
    {
      DedupElement(a + b, i);
      assert forall j :: 0 <= j < |d| ==> d[j] == u[j] && u[j] != u[i];
      assert u[i] !in d;
    }
    if Distinct(a) {
      DedupDistinct(a);
    }
  }

  /** get_lost_vnodes: the routing table's own list, unioned with the history when a timestamp is given. */
  function LostVnodes(base: seq<int>, ymdhms: Option<string>, history: seq<int>): (r: seq<int>)
    ensures ymdhms.None? ==> r == base
    ensures ymdhms.Some? ==> Distinct(r) && forall v :: v in r <==> v in base || v in history
  {
    if ymdhms.Some? then UnionBaseFirst(base, history); Union(base, history) else base
  }

  const END := "END\r\n"

  /**
   * The replies get_history_of_lost reads: one integer per line up to the line
   * "END\r\n", and the number of lines read. A nil line (the end of the
   * stream) makes `buf.chomp` raise, which is None here.
   */
  function HistoryOf(replies: seq<Option<string>>): (r: Option<(seq<int>, nat)>)
    ensures r.Some? ==> 0 < r.value.1 <= |replies|
  {
    if replies == [] || replies[0].None? then None
    else if replies[0].value == END then Some(([], 1))
    else match HistoryOf(replies[1..])
      case None => None
      case Some((vs, n)) => Some(([ToI(Chomp(replies[0].value))] + vs, n + 1))
  }

  /** No line before index n is nil or the end line. */
  predicate HistoryLines(replies: seq<Option<string>>, n: nat)
    requires n <= |replies|
  {
    forall j :: 0 <= j < n ==> replies[j].Some? && replies[j].value != END
  }

  /**
   * The history is read up to the first end line: index n is that line, the
   * values are those of the lines before it, in order, and nothing after the
   * end line is read. Without an end line before the first nil, nothing is
   * returned.
   */
  lemma {:induction false} HistoryOfSpec(replies: seq<Option<string>>)
    ensures HistoryOf(replies).Some? <==>
      exists n :: 0 <= n < |replies| && replies[n] == Some(END) && HistoryLines(replies, n)
    ensures HistoryOf(replies).Some? ==>
      var (vs, m) := HistoryOf(replies).value;
      && replies[m - 1] == Some(END) && HistoryLines(replies, m - 1) && |vs| == m - 1
      && forall j :: 0 <= j < |vs| ==> vs[j] == ToI(Chomp(replies[j].value))
  {
    if replies != [] && replies[0].Some? && replies[0].value != END {
      var t := replies[1..];
      HistoryOfSpec(t);
      if HistoryOf(replies).Some? {
        var (vs, n) := HistoryOf(t).value;
        assert HistoryOf(replies).value.1 == n + 1;
        assert forall j :: 0 < j <= n ==> replies[j] == t[j - 1];
        assert replies[n] == Some(END) && HistoryLines(replies, n);
      } else {
        forall n | 0 <= n < |replies| && replies[n] == Some(END)
          ensures !HistoryLines(replies, n)
        {
          assert n > 0;
          if HistoryLines(replies, n) {
            assert t[n - 1] == Some(END);
            assert HistoryLines(t, n - 1);
          }
        }
      }
    } else if replies != [] && replies[0] == Some(END) {
      assert replies[0] == Some(END) && HistoryLines(replies, 0);
    }
  }

  /** A history read after the values vals were read. */
  function After(vals: seq<int>, h: Option<(seq<int>, nat)>): Option<(seq<int>, nat)> {
    if h.None? then None else Some((vals + h.value.0, |vals| + h.value.1))
  }

  lemma AfterNothing(h: Option<(seq<int>, nat)>)
    ensures After([], h) == h
  {
    if h.Some? {
      assert [] + h.value.0 == h.value.0;
    }
  }

  lemma AfterCons(vals: seq<int>, x: int, h: Option<(seq<int>, nat)>)
    ensures After(vals, After([x], h)) == After(vals + [x], h)
  {
    if h.Some? {
      assert vals + ([x] + h.value.0) == vals + [x] + h.value.0;
    }
  }

  /** The first k values are the first k - 1 and then value k - 1. */
  lemma AfterTake(vals: seq<int>, k: nat, h: Option<(seq<int>, nat)>)
    requires 0 < k <= |vals|
    ensures After(vals[..k - 1], After([vals[k - 1]], h)) == After(vals[..k], h)
  {
    AfterCons(vals[..k - 1], vals[k - 1], h);
    assert vals[..k] == vals[..k - 1] + [vals[k - 1]];
  }

  /** All of vals, then the end line. */
  lemma AfterAll(vals: seq<int>)
    ensures After(vals[..|vals|], Some(([], 1))) == Some((vals, |vals| + 1))
  {
    assert vals[..|vals|] == vals && vals + [] == vals;
  }

  /** A value line at index n: its value, then the history after it. */
  lemma HistoryStep(replies: seq<Option<string>>, n: nat)
    requires n < |replies| && replies[n].Some? && replies[n].value != END
    ensures HistoryOf(replies[n..]) == After([ToI(Chomp(replies[n].value))], HistoryOf(replies[n + 1..]))
  {
    assert replies[n..][1..] == replies[n + 1..];
  }

  /** Where the read stops: the end line is read, and a nil line or the end of the script gives nothing. */
  lemma HistoryStop(replies: seq<Option<string>>, n: nat)
    requires n <= |replies| && !(n < |replies| && replies[n].Some? && replies[n].value != END)
    ensures HistoryOf(replies[n..]) == if n < |replies| && replies[n] == Some(END) then Some(([], 1)) else None
  {
    if n < |replies| {
      assert replies[n..][0] == replies[n];
    }
  }

  /** The first k lines, all value lines, read as the first k values. */
  lemma {:induction false} HistoryPrefix(replies: seq<Option<string>>, vals: seq<int>, k: nat)
    requires k <= |vals| <= |replies| && HistoryLines(replies, |vals|)
    requires forall j :: 0 <= j < |vals| ==> vals[j] == ToI(Chomp(replies[j].value))
    ensures HistoryOf(replies) == After(vals[..k], HistoryOf(replies[k..]))
  {
    if k == 0 {
      assert replies[0..] == replies;
      AfterNothing(HistoryOf(replies));
    } else {
      HistoryPrefix(replies, vals, k - 1);
      HistoryStep(replies, k - 1);
      AfterTake(vals, k, HistoryOf(replies[k..]));
    }
  }

  /** Lines read up to an end line at index n give exactly their values. */
  lemma HistoryEndsAt(replies: seq<Option<string>>, vals: seq<int>, n: nat)
    requires n < |replies| && replies[n] == Some(END) && HistoryLines(replies, n)
    requires |vals| == n && forall j :: 0 <= j < n ==> vals[j] == ToI(Chomp(replies[j].value))
    ensures HistoryOf(replies) == Some((vals, n + 1))
  {
    HistoryPrefix(replies, vals, n);
    HistoryStop(replies, n);
    AfterAll(vals);
  }

  /** A nil line, or the end of the script, before any end line: no history. */
  lemma {:induction false} HistoryBroken(replies: seq<Option<string>>, n: nat)
    requires n <= |replies| && HistoryLines(replies, n) && (n == |replies| || replies[n].None?)
    ensures HistoryOf(replies).None?
  {
    if n > 0 {
      var t := replies[1..];
      assert HistoryLines(t, n - 1) by {
        assert forall j :: 0 <= j < n - 1 ==> t[j] == replies[j + 1];
      }
      HistoryBroken(t, n - 1);
    }
  }
}
