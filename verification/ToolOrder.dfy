/** Sorting tools by name. Names compare as byte strings, which for UTF-8 is the order of their code points. */
module ToolOrder {
  import opened Options

  datatype Tool = Tool(name: string, description: Option<string>, inputSchema: string)

  predicate NameLeq(a: string, b: string) {
    a == "" || (b != "" && (a[0] < b[0] || (a[0] == b[0] && NameLeq(a[1..], b[1..]))))
  }

  function Insert(t: Tool, sorted: seq<Tool>): seq<Tool> {
    if sorted == [] || NameLeq(t.name, sorted[0].name) then [t] + sorted
    else [sorted[0]] + Insert(t, sorted[1..])
  }

  /** A stable sort: an element is put before the equal ones that followed it. */
  function Sort(tools: seq<Tool>): seq<Tool> {
    if tools == [] then [] else Insert(tools[0], Sort(tools[1..]))
  }

  ghost predicate Sorted(tools: seq<Tool>) {
    forall i, j | 0 <= i < j < |tools| :: NameLeq(tools[i].name, tools[j].name)
  }

  /** No two different tools share a name. */
  ghost predicate NameDetermines(tools: seq<Tool>) {
    forall a, b | a in tools && b in tools && a.name == b.name :: a == b
  }

  // ---------------------------------------------------------------- the order on names

  lemma {:induction false} NameLeqTotal(a: string, b: string)
    ensures NameLeq(a, b) || NameLeq(b, a)
    ensures NameLeq(a, b) && NameLeq(b, a) ==> a == b
    ensures NameLeq(a, a)
  {
    if a == "" {
    } else {
      if b != "" {
        NameLeqTotal(a[1..], b[1..]);
        assert a == [a[0]] + a[1..] && b == [b[0]] + b[1..];
      } else {
        NameLeqTotal(a[1..], a[1..]);
      }
    }
  }

  lemma {:induction false} NameLeqTransitive(a: string, b: string, c: string)
    requires NameLeq(a, b) && NameLeq(b, c)
    ensures NameLeq(a, c)
  {
    if a != "" && a[0] == b[0] == c[0] {
      NameLeqTransitive(a[1..], b[1..], c[1..]);
    }
  }

  /** The order of byte strings: a prefix comes first, and otherwise the first difference decides. */
  lemma {:induction false} NameLeqIsLexicographic(a: string, b: string)
    ensures NameLeq(a, b) <==>
            a <= b || exists i :: 0 <= i < |a| && i < |b| && a[..i] == b[..i] && a[i] < b[i]
  {
    if a == "" || b == "" {
    } else {
      NameLeqIsLexicographic(a[1..], b[1..]);
      if a[0] == b[0] && NameLeq(a[1..], b[1..]) && !(a[1..] <= b[1..]) {
        var j :| 0 <= j < |a[1..]| && j < |b[1..]| && a[1..][..j] == b[1..][..j] && a[1..][j] < b[1..][j];
        assert a[..j + 1] == [a[0]] + a[1..][..j] && b[..j + 1] == [b[0]] + b[1..][..j];
      }
      if i :| 0 < i < |a| && i < |b| && a[..i] == b[..i] && a[i] < b[i] {
        assert a[..i][0] == b[..i][0];
        assert a[1..][..i - 1] == a[..i][1..] && b[1..][..i - 1] == b[..i][1..];
      }
      if a <= b {
        assert a[1..] == b[1..][..|a| - 1];
      }
      if a[0] == b[0] && a[1..] <= b[1..] {
        assert a == [a[0]] + a[1..] && b == [b[0]] + b[1..];
      }
      if a[0] < b[0] {
        assert a[..0] == b[..0];
      }
    }
  }

  /** `a` comes before `b` in the order of byte strings, or they are equal. */
  ghost predicate Before(a: string, b: string) {
    a <= b || exists i :: 0 <= i < |a| && i < |b| && a[..i] == b[..i] && a[i] < b[i]
  }

  ghost predicate InNameOrder(tools: seq<Tool>) {
    forall i | 0 < i < |tools| :: Before(tools[i - 1].name, tools[i].name)
  }

  lemma {:induction false} SortedIsInNameOrder(tools: seq<Tool>)
    requires Sorted(tools)
    ensures InNameOrder(tools)
  {
    forall i | 0 < i < |tools|
      ensures Before(tools[i - 1].name, tools[i].name)
    {
      NameLeqIsLexicographic(tools[i - 1].name, tools[i].name);
    }
  }

  // ---------------------------------------------------------------- sorting

  lemma {:induction false} InsertPermutes(t: Tool, sorted: seq<Tool>)
    ensures multiset(Insert(t, sorted)) == multiset{t} + multiset(sorted)
  {
    if sorted == [] || NameLeq(t.name, sorted[0].name) {
    } else {
      InsertPermutes(t, sorted[1..]);
      assert sorted == [sorted[0]] + sorted[1..];
    }
  }

  lemma {:induction false} SortedCons(head: Tool, tail: seq<Tool>)
    requires Sorted(tail) && forall x | x in tail :: NameLeq(head.name, x.name)
    ensures Sorted([head] + tail)
  {
  }

  lemma {:induction false} InsertSorts(t: Tool, sorted: seq<Tool>)
    requires Sorted(sorted)
    ensures Sorted(Insert(t, sorted))
  {
    if sorted == [] {
    } else if NameLeq(t.name, sorted[0].name) {
      forall x | x in sorted
        ensures NameLeq(t.name, x.name)
      {
        NameLeqTotal(sorted[0].name, sorted[0].name);
        NameLeqTransitive(t.name, sorted[0].name, x.name);
      }
      SortedCons(t, sorted);
    } else {
      InsertSorts(t, sorted[1..]);
      forall x | x in Insert(t, sorted[1..])
        ensures NameLeq(sorted[0].name, x.name)
      {
        InsertPermutes(t, sorted[1..]);
        assert x in multiset(Insert(t, sorted[1..]));
        NameLeqTotal(t.name, sorted[0].name);
      }
      SortedCons(sorted[0], Insert(t, sorted[1..]));
    }
  }

  lemma {:induction false} SortPermutes(tools: seq<Tool>)
    ensures multiset(Sort(tools)) == multiset(tools)
  {
    if tools == [] {
    } else {
      SortPermutes(tools[1..]);
      InsertPermutes(tools[0], Sort(tools[1..]));
      assert tools == [tools[0]] + tools[1..];
    }
  }

  lemma {:induction false} SortIsSorted(tools: seq<Tool>)
    ensures Sorted(Sort(tools))
  {
    if tools == [] {
    } else {
      SortIsSorted(tools[1..]);
      InsertSorts(tools[0], Sort(tools[1..]));
    }
  }

  lemma {:induction false} SortSorts(tools: seq<Tool>)
    ensures Sorted(Sort(tools)) && InNameOrder(Sort(tools)) && multiset(Sort(tools)) == multiset(tools)
  {
    SortIsSorted(tools);
    SortedIsInNameOrder(Sort(tools));
    SortPermutes(tools);
  }

  lemma {:induction false} HeadIsLeast(s: seq<Tool>, t: Tool)
    requires Sorted(s) && t in multiset(s)
    ensures s != [] && NameLeq(s[0].name, t.name)
  {
    var i :| 0 <= i < |s| && s[i] == t;
    NameLeqTotal(t.name, t.name);
  }

  lemma {:induction false} TailMultiset(s: seq<Tool>)
    requires s != []
    ensures multiset(s[1..]) == multiset(s) - multiset{s[0]}
  {
    assert s == [s[0]] + s[1..];
  }

  lemma {:induction false} SameHead(a: seq<Tool>, b: seq<Tool>)
    requires Sorted(a) && Sorted(b) && multiset(a) == multiset(b) && NameDetermines(a) && a != []
    ensures b != [] && b[0] == a[0]
  {
    assert a[0] in multiset(a);
    HeadIsLeast(b, a[0]);
    assert b[0] in multiset(a);
    HeadIsLeast(a, b[0]);
    NameLeqTotal(a[0].name, b[0].name);
  }

  /** A sorted arrangement of tools whose names determine them is unique. */
  lemma {:induction false} SortedUnique(a: seq<Tool>, b: seq<Tool>)
    requires Sorted(a) && Sorted(b) && multiset(a) == multiset(b) && NameDetermines(a)
    ensures a == b
  {
    assert |multiset(a)| == |multiset(b)|;
    if a == [] {
    } else {
      SameHead(a, b);
      TailMultiset(a);
      TailMultiset(b);
      SortedUnique(a[1..], b[1..]);
      assert a == [a[0]] + a[1..] && b == [a[0]] + b[1..];
    }
  }

  // ---------------------------------------------------------------- stability, and when the order is irrelevant

  function Named(tools: seq<Tool>, name: string): seq<Tool> {
    if tools == [] then [] else (if tools[0].name == name then [tools[0]] else []) + Named(tools[1..], name)
  }

  lemma {:induction false} InsertIsStable(t: Tool, sorted: seq<Tool>, name: string)
    requires Sorted(sorted)
    ensures Named(Insert(t, sorted), name) == Named([t] + sorted, name)
  {
    if sorted != [] && !NameLeq(t.name, sorted[0].name) {
      InsertIsStable(t, sorted[1..], name);
      NameLeqTotal(t.name, sorted[0].name);
      assert ([t] + sorted)[1..] == sorted;
      assert ([t] + sorted[1..])[1..] == sorted[1..];
      assert ([sorted[0]] + Insert(t, sorted[1..]))[1..] == Insert(t, sorted[1..]);
    }
  }

  /** Sorting keeps the relative order of tools with the same name. */
  lemma {:induction false} SortIsStable(tools: seq<Tool>, name: string)
    ensures Named(Sort(tools), name) == Named(tools, name)
  {
    if tools == [] {
    } else {
      var rest := Sort(tools[1..]);
      SortIsStable(tools[1..], name);
      SortSorts(tools[1..]);
      InsertIsStable(tools[0], rest, name);
      assert ([tools[0]] + rest)[1..] == rest;
    }
  }

  lemma {:induction false} NamesakesFirst(a: Tool, b: Tool, rest: seq<Tool>)
    requires a.name == b.name
    ensures Named([a, b] + rest, a.name) == [a, b] + Named(rest, a.name)
  {
    assert ([a, b] + rest)[1..] == [b] + rest;
    assert ([b] + rest)[1..] == rest;
  }

  lemma {:induction false} TakeOut(tools: seq<Tool>, a: Tool) returns (rest: seq<Tool>)
    requires a in tools
    ensures multiset(tools) == multiset{a} + multiset(rest)
  {
    var i :| 0 <= i < |tools| && tools[i] == a;
    rest := tools[..i] + tools[i + 1..];
    assert tools == tools[..i] + [a] + tools[i + 1..];
  }

  /** Two tools with one name come out in the order in which they went in. */
  lemma {:induction false} NamesakesKeepOrder(a: Tool, b: Tool, rest: seq<Tool>)
    requires a.name == b.name && a != b
    ensures Sort([a, b] + rest) != Sort([b, a] + rest)
  {
    NamesakesFirst(a, b, rest);
    NamesakesFirst(b, a, rest);
    SortIsStable([a, b] + rest, a.name);
    SortIsStable([b, a] + rest, a.name);
    assert ([a, b] + Named(rest, a.name))[0] == a && ([b, a] + Named(rest, a.name))[0] == b;
  }

  lemma {:induction false} PutFirst(tools: seq<Tool>, a: Tool, b: Tool) returns (rest: seq<Tool>)
    requires a in tools && b in tools && a != b
    ensures multiset([a, b] + rest) == multiset(tools) == multiset([b, a] + rest)
  {
    var others := TakeOut(tools, a);
    assert b in multiset(tools) && b in multiset(others);
    rest := TakeOut(others, b);
  }

  /** The sorted list is the same whatever order the registry and the joined results came in, exactly when no two
      different tools share a name. */
  lemma {:induction false} OrderIrrelevantExactly(tools: seq<Tool>)
    ensures (forall p | multiset(p) == multiset(tools) :: Sort(p) == Sort(tools)) <==> NameDetermines(tools)
  {
    if NameDetermines(tools) {
      forall p | multiset(p) == multiset(tools)
        ensures Sort(p) == Sort(tools)
      {
        SortPermuted(p, tools);
      }
    } else {
      var a, b :| a in tools && b in tools && a.name == b.name && a != b;
      var rest := PutFirst(tools, a, b);
      NamesakesKeepOrder(a, b, rest);
    }
  }

  lemma {:induction false} SortPermuted(p: seq<Tool>, tools: seq<Tool>)
    requires multiset(p) == multiset(tools) && NameDetermines(tools)
    ensures Sort(p) == Sort(tools)
  {
    SortSorts(p);
    SortSorts(tools);
    forall a, b | a in Sort(tools) && b in Sort(tools) && a.name == b.name
      ensures a == b
    {
      assert a in multiset(Sort(tools)) && b in multiset(Sort(tools));
    }
    SortedUnique(Sort(tools), Sort(p));
  }
}
