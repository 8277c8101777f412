/**
 `pj_getopt` and `pj_getopt_long`: scanning an argument vector call by call while moving the
 options to its front.
 */
module GetoptSpec {
  import opened Bytes

  datatype Option<T> = None | Some(value: T)

  datatype Ordering = RequireOrder | Permute | ReturnInOrder

  // struct pj_getopt_option; `flagged` is whether its flag pointer is set.
  datatype LongOption = LongOption(name: string, hasArg: int, flagged: bool, val: int)

  // What stays the same over a run: the accepted short options and, if given, the long ones.
  datatype Syntax = Syntax(shorts: string, longs: Option<seq<LongOption>>)

  // What one option scan hands back: the return value, pj_optarg, what pj_optopt is set to,
  // longind, what is left of the element, and how many elements were passed.
  datatype Outcome = Outcome(code: int, arg: Option<string>, optopt: Option<int>, longind: Option<nat>, next: string, took: nat)

  const QUESTION := '?' as int
  const COLON := ':' as int

  predicate NonOption(e: string) { e == "" || e[0] != '-' || |e| == 1 }

  datatype ShortKind = Unknown | NoArg | Required | Optional

  function KindOf(shorts: string, c: char): ShortKind {
    var k := IndexOf(shorts, c);
    if k == |shorts| || c == ':' then Unknown
    else if k + 1 < |shorts| && shorts[k + 1] == ':' then
      if k + 2 < |shorts| && shorts[k + 2] == ':' then Optional else Required
    else NoArg
  }

  // What a missing argument is reported as.
  function Missing(shorts: string): int { if shorts != "" && shorts[0] == ':' then COLON else QUESTION }

  // One character of a cluster of short options.
  function ScanShort(shorts: string, next: string, following: Option<string>): (o: Outcome)
    requires next != ""
    ensures o.took <= 2 && (o.took == 2 ==> following.Some?)
    ensures o.next != "" ==> o.took == 0
    ensures o.took == 0 ==> 0 < |o.next| < |next|
  {
    var c, rest := next[0], next[1..];
    var passed := if rest == "" then 1 else 0;
    match KindOf(shorts, c)
    case Unknown => Outcome(QUESTION, None, Some(c as int), None, rest, passed)
    case NoArg => Outcome(c as int, None, None, None, rest, passed)
    case Optional => Outcome(c as int, if rest != "" then Some(rest) else None, None, None, "", 1)
    case Required =>
      if rest != "" then Outcome(c as int, Some(rest), None, None, "", 1)
      else if following.None? then Outcome(Missing(shorts), None, Some(c as int), None, "", 1)
      else Outcome(c as int, following, None, None, "", 2)
  }

  datatype Match = NotFound | Ambiguous | Found(index: nat)

  // Exact name first; otherwise the one name the key abbreviates.
  function Lookup(longs: seq<LongOption>, key: string): (m: Match)
    ensures m.Found? ==> m.index < |longs|
  {
    var exact := FirstExact(longs, key, 0);
    if exact < |longs| then Found(exact)
    else
      var first := FirstPrefix(longs, key, 0);
      if first == |longs| then NotFound
      else if FirstPrefix(longs, key, first + 1) < |longs| then Ambiguous
      else Found(first)
  }

  function FirstExact(longs: seq<LongOption>, key: string, from: nat): (k: nat)
    requires from <= |longs|
    ensures from <= k <= |longs| && (k < |longs| ==> longs[k].name == key)
    ensures forall i :: from <= i < k ==> longs[i].name != key
    decreases |longs| - from
  {
    if from == |longs| || longs[from].name == key then from else FirstExact(longs, key, from + 1)
  }

  function FirstPrefix(longs: seq<LongOption>, key: string, from: nat): (k: nat)
    requires from <= |longs|
    ensures from <= k <= |longs| && (k < |longs| ==> key <= longs[k].name)
    ensures forall i :: from <= i < k ==> !(key <= longs[i].name)
    decreases |longs| - from
  {
    if from == |longs| || key <= longs[from].name then from else FirstPrefix(longs, key, from + 1)
  }

  // A whole long option.
  function ScanLong(shorts: string, longs: seq<LongOption>, next: string, following: Option<string>): (o: Outcome)
    ensures 1 <= o.took <= 2 && (o.took == 2 ==> following.Some?)
    ensures o.next == ""
  {
    var n := IndexOf(next, '=');
    var key := next[..n];
    match Lookup(longs, key)
    case Ambiguous => Outcome(QUESTION, None, Some(0), None, "", 1)
    case NotFound => Outcome(QUESTION, None, Some(0), None, "", 1)
    case Found(k) =>
      var p := longs[k];
      var code := if p.flagged then 0 else p.val;
      if n < |next| then
        if p.hasArg != 0 then Outcome(code, Some(next[n + 1..]), None, Some(k), "", 1)
        else Outcome(QUESTION, None, Some(p.val), None, "", 1)
      else if p.hasArg == 1 then
        if following.Some? then Outcome(code, following, None, Some(k), "", 2)
        else Outcome(Missing(shorts), None, Some(p.val), None, "", 1)
      else Outcome(code, None, None, Some(k), "", 1)
  }

  predicate IsLong(x: Syntax, e: string) { x.longs.Some? && |e| > 1 && e[1] == '-' }

  function ScanElement(x: Syntax, e: string, next: string, following: Option<string>): (o: Outcome)
    requires next != "" || IsLong(x, e)
    ensures o.took <= 2 && (o.took == 2 ==> following.Some?)
    ensures o.next != "" ==> o.took == 0
    ensures o.took == 0 ==> 0 < |o.next| < |next|
  {
    hide ScanLong, ScanShort;
    if IsLong(x, e) then ScanLong(x.shorts, x.longs.value, next, following) else ScanShort(x.shorts, next, following)
  }

  // The state of a run: the options passed with their arguments, the operands skipped, what is
  // left of the current element, and the elements still ahead (the current one included).
  datatype Scan = Scan(done: seq<string>, skipped: seq<string>, next: string, todo: seq<string>)

  predicate ScanOk(x: Syntax, s: Scan) {
    s.next != "" ==> s.todo != [] && !IsLong(x, s.todo[0])
  }

  function Operands(todo: seq<string>): (n: nat)
    ensures n <= |todo| && (n < |todo| ==> !NonOption(todo[n]))
    ensures forall i :: 0 <= i < n ==> NonOption(todo[i])
  {
    if todo == [] || !NonOption(todo[0]) then 0 else 1 + Operands(todo[1..])
  }

  // One call. None means that the run is over.
  datatype Call = Call(scan: Scan, outcome: Option<Outcome>)

  function Start(x: Syntax, e: string): string
    requires !NonOption(e)
  {
    if IsLong(x, e) then e[2..] else e[1..]
  }

  function Following(todo: seq<string>): Option<string> { if |todo| > 1 then Some(todo[1]) else None }

  function PassElement(x: Syntax, s: Scan): (c: Call)
    requires s.todo != [] && (s.next != "" || IsLong(x, s.todo[0]))
    ensures ScanOk(x, c.scan) && c.outcome.Some?
  {
    var o := ScanElement(x, s.todo[0], s.next, Following(s.todo));
    Call(Scan(s.done + s.todo[..o.took], s.skipped, o.next, s.todo[o.took..]), Some(o))
  }

  function NextCall(ordering: Ordering, x: Syntax, s: Scan): (c: Call)
    requires ScanOk(x, s)
    ensures ScanOk(x, c.scan)
  {
    if s.next != "" then PassElement(x, s)
    else
      var n := if ordering.Permute? then Operands(s.todo) else 0;
      var skipped, todo := s.skipped + s.todo[..n], s.todo[n..];
      if todo == [] then Call(Scan(s.done, skipped, "", []), None)
      else if todo[0] == "--" then Call(Scan(s.done + ["--"], skipped + todo[1..], "", []), None)
      else if NonOption(todo[0]) then
        if ordering.RequireOrder? then Call(Scan(s.done, skipped + todo, "", []), None)
        else Call(Scan(s.done + [todo[0]], skipped, "", todo[1..]), Some(Outcome(1, Some(todo[0]), None, None, "", 1)))
      else PassElement(x, Scan(s.done, skipped, Start(x, todo[0]), todo))
  }
}

/** A whole run of calls, and the partition it leaves behind. */
module GetoptRun {
  import opened Bytes
  import opened GetoptSpec

  function Left(s: Scan): nat {
    if s.next != "" then |s.next| else if s.todo == [] then 0 else |s.todo[0]| + 1
  }

  lemma Progress(ordering: Ordering, x: Syntax, s: Scan)
    requires ScanOk(x, s)
    ensures var c := NextCall(ordering, x, s);
            c.outcome.Some? ==> |c.scan.todo| < |s.todo| || (|c.scan.todo| == |s.todo| && Left(c.scan) < Left(s))
  {
    hide ScanElement;
  }

  datatype Ended = Ended(scan: Scan, outcomes: seq<Outcome>)

  // Call until the run is over; that it gets there is what `decreases` says.
  function Run(ordering: Ordering, x: Syntax, s: Scan): Ended
    requires ScanOk(x, s)
    decreases |s.todo|, Left(s)
  {
    Progress(ordering, x, s);
    var c := NextCall(ordering, x, s);
    if c.outcome.None? then Ended(c.scan, [])
    else
      var rest := Run(ordering, x, c.scan);
      Ended(rest.scan, [c.outcome.value] + rest.outcomes)
  }

  datatype Role = OptionPart | Operand

  // Whether an element's options take the next element as an argument, read off the element alone.
  function ClusterTakes(shorts: string, cluster: string): bool {
    cluster != "" &&
    match KindOf(shorts, cluster[0])
    case Unknown => ClusterTakes(shorts, cluster[1..])
    case NoArg => ClusterTakes(shorts, cluster[1..])
    case Optional => false
    case Required => |cluster| == 1
  }

  function LongTakes(longs: seq<LongOption>, name: string): bool {
    IndexOf(name, '=') == |name| && Lookup(longs, name).Found? && longs[Lookup(longs, name).index].hasArg == 1
  }

  function TakesNext(x: Syntax, e: string): bool {
    if IsLong(x, e) then LongTakes(x.longs.value, e[2..]) else e != "" && ClusterTakes(x.shorts, e[1..])
  }

  // The plain left-to-right reading of an argument vector, with nothing moved.
  function Roles(x: Syntax, args: seq<string>): (rs: seq<Role>)
    ensures |rs| == |args|
    decreases |args|
  {
    if args == [] then []
    else if args[0] == "--" then [OptionPart] + Repeat(Operand, |args| - 1)
    else if NonOption(args[0]) then [Operand] + Roles(x, args[1..])
    else if TakesNext(x, args[0]) && |args| > 1 then [OptionPart, OptionPart] + Roles(x, args[2..])
    else [OptionPart] + Roles(x, args[1..])
  }

  // The same from the middle of a cluster.
  function RolesFrom(x: Syntax, next: string, todo: seq<string>): (rs: seq<Role>)
    requires next != "" ==> todo != []
    ensures |rs| == |todo|
  {
    if next == "" then Roles(x, todo)
    else if ClusterTakes(x.shorts, next) && |todo| > 1 then [OptionPart, OptionPart] + Roles(x, todo[2..])
    else [OptionPart] + Roles(x, todo[1..])
  }

  // The elements of one role, in order.
  function Select<T>(xs: seq<T>, roles: seq<Role>, r: Role): seq<T>
    requires |xs| == |roles|
  {
    if xs == [] then [] else (if roles[0] == r then [xs[0]] else []) + Select(xs[1..], roles[1..], r)
  }

  lemma {:induction false} SelectAppend<T>(a: seq<T>, b: seq<T>, ra: seq<Role>, rb: seq<Role>, r: Role)
    requires |a| == |ra| && |b| == |rb|
    ensures Select(a + b, ra + rb, r) == Select(a, ra, r) + Select(b, rb, r)
  {
    if a == [] {
      assert a + b == b && ra + rb == rb;
    } else {
      assert (a + b)[1..] == a[1..] + b && (ra + rb)[1..] == ra[1..] + rb;
      SelectAppend(a[1..], b, ra[1..], rb, r);
    }
  }

  lemma {:induction false} SelectRepeat<T>(a: seq<T>, r: Role, s: Role)
    ensures Select(a, Repeat(s, |a|), r) == if r == s then a else []
  {
    if a != [] {
      assert Repeat(s, |a|)[1..] == Repeat(s, |a[1..]|);
      SelectRepeat(a[1..], r, s);
    }
  }

  lemma {:induction false} OperandRoles(x: Syntax, todo: seq<string>)
    ensures var n := Operands(todo); Roles(x, todo) == Repeat(Operand, n) + Roles(x, todo[n..])
  {
    hide TakesNext, IsLong, LongTakes, ClusterTakes;
    var n := Operands(todo);
    if n == 0 {
      assert todo[0..] == todo;
    } else {
      var m := Operands(todo[1..]);
      OperandRoles(x, todo[1..]);
      assert n == m + 1 && todo[1..][m..] == todo[n..];
      assert Roles(x, todo) == [Operand] + Roles(x, todo[1..]);
      assert Repeat(Operand, n) == [Operand] + Repeat(Operand, m);
      AppendAssociates([Operand], Repeat(Operand, m), Roles(x, todo[n..]));
    }
  }

  // Passing an element takes exactly as many elements as its reading says.
  lemma PassTakes(x: Syntax, s: Scan)
    requires s.todo != [] && !IsLong(x, s.todo[0]) && s.next != ""
    ensures var o := ScanShort(x.shorts, s.next, Following(s.todo));
            if o.took == 0 then o.next != "" && ClusterTakes(x.shorts, o.next) == ClusterTakes(x.shorts, s.next)
            else o.next == "" && (o.took == 2 <==> ClusterTakes(x.shorts, s.next) && |s.todo| > 1)
  {
    hide KindOf;
    assert ClusterTakes(x.shorts, "") == false;
  }

  lemma PassTakesLong(x: Syntax, s: Scan)
    requires s.todo != [] && IsLong(x, s.todo[0])
    ensures var o := ScanLong(x.shorts, x.longs.value, s.next, Following(s.todo));
            o.next == "" && 1 <= o.took && (o.took == 2 <==> LongTakes(x.longs.value, s.next) && |s.todo| > 1)
  {
    assert s.next[..|s.next|] == s.next;
  }

  // The state a call leads to reads the rest as the state before read it.
  ghost predicate Reads(x: Syntax, s: Scan, done: seq<string>, skipped: seq<string>)
    requires ScanOk(x, s)
  {
    var rs := RolesFrom(x, s.next, s.todo);
    && done == s.done + Select(s.todo, rs, OptionPart)
    && skipped == s.skipped + Select(s.todo, rs, Operand)
  }

  lemma SelectOptions(todo: seq<string>, w: nat, rest: seq<Role>)
    requires w <= |todo| && |rest| == |todo| - w
    ensures Select(todo, Repeat(OptionPart, w) + rest, OptionPart) == todo[..w] + Select(todo[w..], rest, OptionPart)
    ensures Select(todo, Repeat(OptionPart, w) + rest, Operand) == Select(todo[w..], rest, Operand)
  {
    assert todo == todo[..w] + todo[w..];
    SelectAppend(todo[..w], todo[w..], Repeat(OptionPart, w), rest, OptionPart);
    SelectAppend(todo[..w], todo[w..], Repeat(OptionPart, w), rest, Operand);
    SelectRepeat(todo[..w], OptionPart, OptionPart);
    SelectRepeat(todo[..w], Operand, OptionPart);
  }

  lemma SelectOperands(todo: seq<string>, w: nat, rest: seq<Role>)
    requires w <= |todo| && |rest| == |todo| - w
    ensures Select(todo, Repeat(Operand, w) + rest, Operand) == todo[..w] + Select(todo[w..], rest, Operand)
    ensures Select(todo, Repeat(Operand, w) + rest, OptionPart) == Select(todo[w..], rest, OptionPart)
  {
    assert todo == todo[..w] + todo[w..];
    SelectAppend(todo[..w], todo[w..], Repeat(Operand, w), rest, OptionPart);
    SelectAppend(todo[..w], todo[w..], Repeat(Operand, w), rest, Operand);
    SelectRepeat(todo[..w], OptionPart, Operand);
    SelectRepeat(todo[..w], Operand, Operand);
  }

  lemma RolesOfOptions(x: Syntax, next: string, todo: seq<string>)
    requires next != "" && todo != []
    ensures var w := if ClusterTakes(x.shorts, next) && |todo| > 1 then 2 else 1;
            RolesFrom(x, next, todo) == Repeat(OptionPart, w) + Roles(x, todo[w..])
  {
    hide Roles, ClusterTakes;
    assert Repeat(OptionPart, 2) == [OptionPart, OptionPart] && Repeat(OptionPart, 1) == [OptionPart];
  }

  // One pass over (part of) a short element keeps the reading.
  lemma PassReads(x: Syntax, s: Scan, done: seq<string>, skipped: seq<string>)
    requires s.next != "" && ScanOk(x, s)
    requires Reads(x, PassElement(x, s).scan, done, skipped)
    ensures Reads(x, s, done, skipped)
  {
    hide ScanShort, ScanLong, ClusterTakes, Roles, Select, Repeat;
    PassTakes(x, s);
    var o := ScanElement(x, s.todo[0], s.next, Following(s.todo));
    if o.took == 0 {
      assert s.todo[..0] == [] && s.todo[0..] == s.todo && s.done + [] == s.done;
      assert RolesFrom(x, o.next, s.todo) == RolesFrom(x, s.next, s.todo);
    } else {
      RolesOfOptions(x, s.next, s.todo);
      SelectOptions(s.todo, o.took, Roles(x, s.todo[o.took..]));
      AppendAssociates(s.done, s.todo[..o.took], Select(s.todo[o.took..], Roles(x, s.todo[o.took..]), OptionPart));
    }
  }

  lemma PassReadsLong(x: Syntax, s: Scan, done: seq<string>, skipped: seq<string>)
    requires s.todo != [] && IsLong(x, s.todo[0]) && s.next == s.todo[0][2..]
    requires !NonOption(s.todo[0]) && s.todo[0] != "--"
    requires Reads(x, PassElement(x, s).scan, done, skipped)
    ensures Reads(x, Scan(s.done, s.skipped, "", s.todo), done, skipped)
  {
    hide ScanShort, ScanLong, LongTakes, ClusterTakes, Select;
    PassTakesLong(x, s);
    var o := ScanElement(x, s.todo[0], s.next, Following(s.todo));
    assert Roles(x, s.todo) == Repeat(OptionPart, o.took) + Roles(x, s.todo[o.took..]);
    SelectOptions(s.todo, o.took, Roles(x, s.todo[o.took..]));
    AppendAssociates(s.done, s.todo[..o.took], Select(s.todo[o.took..], Roles(x, s.todo[o.took..]), OptionPart));
  }

  // Starting an element keeps the reading.
  lemma StartReads(x: Syntax, s: Scan, done: seq<string>, skipped: seq<string>)
    requires s.next == "" && s.todo != [] && !NonOption(s.todo[0]) && s.todo[0] != "--"
    requires Reads(x, PassElement(x, s.(next := Start(x, s.todo[0]))).scan, done, skipped)
    ensures Reads(x, s, done, skipped)
  {
    hide ScanShort, ScanLong, ClusterTakes, LongTakes, Select;
    var t := s.(next := Start(x, s.todo[0]));
    if IsLong(x, s.todo[0]) {
      PassReadsLong(x, t, done, skipped);
    } else {
      PassReads(x, t, done, skipped);
      assert RolesFrom(x, t.next, s.todo) == Roles(x, s.todo);
    }
  }

  // Skipping operands keeps the reading.
  lemma SkipReads(x: Syntax, s: Scan, done: seq<string>, skipped: seq<string>)
    requires s.next == ""
    requires var n := Operands(s.todo); Reads(x, Scan(s.done, s.skipped + s.todo[..n], "", s.todo[n..]), done, skipped)
    ensures Reads(x, s, done, skipped)
  {
    hide Roles, Select, Repeat, Operands;
    var n := Operands(s.todo);
    OperandRoles(x, s.todo);
    SelectOperands(s.todo, n, Roles(x, s.todo[n..]));
    AppendAssociates(s.skipped, s.todo[..n], Select(s.todo[n..], Roles(x, s.todo[n..]), Operand));
  }

  // The end of a run, at the end of the vector or at "--".
  lemma EmptyReads(x: Syntax, s: Scan)
    requires s.next == "" && s.todo == []
    ensures Reads(x, s, s.done, s.skipped)
  {
  }

  lemma DashesRead(x: Syntax, s: Scan)
    requires s.next == "" && s.todo != [] && s.todo[0] == "--"
    ensures Reads(x, s, s.done + ["--"], s.skipped + s.todo[1..])
  {
    hide Select;
    var rest := Repeat(Operand, |s.todo| - 1);
    assert Roles(x, s.todo) == Repeat(OptionPart, 1) + rest;
    SelectOptions(s.todo, 1, rest);
    SelectRepeat(s.todo[1..], OptionPart, Operand);
    SelectRepeat(s.todo[1..], Operand, Operand);
    assert s.todo[..1] + [] == ["--"];
  }

  lemma EndReads(x: Syntax, s: Scan)
    requires s.next == "" && NextCall(Permute, x, s).outcome.None?
    ensures var e := NextCall(Permute, x, s).scan; Reads(x, s, e.done, e.skipped)
  {
    hide Reads, ScanElement, IsLong;
    var n := Operands(s.todo);
    var t := Scan(s.done, s.skipped + s.todo[..n], "", s.todo[n..]);
    var e := NextCall(Permute, x, s).scan;
    if t.todo == [] {
      EmptyReads(x, t);
    } else {
      DashesRead(x, t);
    }
    SkipReads(x, s, e.done, e.skipped);
  }

  lemma {:induction false} RunReads(x: Syntax, s: Scan)
    requires ScanOk(x, s)
    ensures var e := Run(Permute, x, s).scan; Reads(x, s, e.done, e.skipped)
    decreases |s.todo|, Left(s)
  {
    hide Reads, ScanElement;
    Progress(Permute, x, s);
    var c := NextCall(Permute, x, s);
    if c.outcome.None? {
      EndReads(x, s);
    } else {
      RunReads(x, c.scan);
      var e := Run(Permute, x, s).scan;
      assert e == Run(Permute, x, c.scan).scan;
      if s.next != "" {
        PassReads(x, s, e.done, e.skipped);
      } else {
        var n := Operands(s.todo);
        var t := Scan(s.done, s.skipped + s.todo[..n], "", s.todo[n..]);
        StartReads(x, t, e.done, e.skipped);
        SkipReads(x, s, e.done, e.skipped);
      }
    }
  }

  // Main result: the run separates the vector exactly as it reads from left to right, and keeps
  // the order inside each part.
  lemma RunPartitions(x: Syntax, args: seq<string>)
    ensures var e := Run(Permute, x, Scan([], [], "", args)).scan;
            && e.done == Select(args, Roles(x, args), OptionPart)
            && e.skipped == Select(args, Roles(x, args), Operand)
            && multiset(e.done + e.skipped) == multiset(args)
  {
    hide Run, Roles, Select;
    RunReads(x, Scan([], [], "", args));
    assert forall y: seq<string> :: [] + y == y;
    SelectLosesNothing(args, Roles(x, args));
  }

  lemma {:induction false} SelectLosesNothing<T>(xs: seq<T>, roles: seq<Role>)
    requires |xs| == |roles|
    ensures multiset(Select(xs, roles, OptionPart)) + multiset(Select(xs, roles, Operand)) == multiset(xs)
  {
    if xs != [] {
      hide *;
      SelectLosesNothing(xs[1..], roles[1..]);
      SelectCons(xs, roles, OptionPart);
      SelectCons(xs, roles, Operand);
      GoesToOne(xs[0], xs[1..], Select(xs[1..], roles[1..], OptionPart), Select(xs[1..], roles[1..], Operand), roles[0]);
      assert xs == [xs[0]] + xs[1..];
    }
  }

  lemma SelectCons<T>(xs: seq<T>, roles: seq<Role>, r: Role)
    requires |xs| == |roles| > 0
    ensures Select(xs, roles, r) == (if roles[0] == r then [xs[0]] else []) + Select(xs[1..], roles[1..], r)
  {
  }

  lemma GoesToOne<T>(x: T, xs: seq<T>, a: seq<T>, b: seq<T>, role: Role)
    requires multiset(a) + multiset(b) == multiset(xs)
    ensures multiset((if role == OptionPart then [x] else []) + a) + multiset((if role == Operand then [x] else []) + b)
         == multiset([x] + xs)
  {
    assert [] + a == a && [] + b == b;
  }
}

/** The scanner itself. */
module Getopt {
  import opened Bytes
  import opened GetoptSpec
  import opened GetoptRun

  // Where the pieces of a concatenation are.
  lemma Pieces(s: seq<string>, p: seq<string>, q: seq<string>, m: seq<string>, t: seq<string>, r: seq<string>)
    requires s == p + q + m + t + r
    ensures |s| == |p| + |q| + |m| + |t| + |r|
    ensures s[..|p|] == p && s[|p|..|p| + |q|] == q && s[|p| + |q|..|p| + |q| + |m|] == m
    ensures s[|p| + |q| + |m|..|s| - |r|] == t && s[|s| - |r|..] == r
  {
  }

  function Swapped(s: seq<string>, i: nat, j: nat, len: nat): seq<string>
    requires i + len <= j && j + len <= |s|
  {
    s[..i] + s[j..j + len] + s[i + len..j] + s[i..i + len] + s[j + len..]
  }

  // Exchange two disjoint blocks of equal length (the inner loops of `exchange`).
  method SwapBlocks(a: array<string>, i: nat, j: nat, len: nat)
    requires i + len <= j && j + len <= a.Length
    modifies a
    ensures a[..] == Swapped(old(a[..]), i, j, len)
  {
    hide Swapped;
    ghost var was := a[..];
    for k := 0 to len
      invariant forall m :: i <= m < i + k ==> a[m] == was[m - i + j]
      invariant forall m :: j <= m < j + k ==> a[m] == was[m - j + i]
      invariant forall m :: 0 <= m < a.Length && !(i <= m < i + k) && !(j <= m < j + k) ==> a[m] == was[m]
    {
      var tem := a[i + k];
      a[i + k] := a[j + k];
      a[j + k] := tem;
    }
    SwappedAt(was, i, j, len, a[..]);
  }

  lemma SwappedAt(s: seq<string>, i: nat, j: nat, len: nat, t: seq<string>)
    requires i + len <= j && j + len <= |s| == |t|
    requires forall m :: i <= m < i + len ==> t[m] == s[m - i + j]
    requires forall m :: j <= m < j + len ==> t[m] == s[m - j + i]
    requires forall m :: 0 <= m < |s| && !(i <= m < i + len) && !(j <= m < j + len) ==> t[m] == s[m]
    ensures t == Swapped(s, i, j, len)
  {
    assert t[i..i + len] == s[j..j + len];
    assert t[j..j + len] == s[i..i + len];
    assert t[..i] == s[..i] && t[i + len..j] == s[i + len..j] && t[j + len..] == s[j + len..];
    assert t == t[..i] + t[i..i + len] + t[i + len..j] + t[j..j + len] + t[j + len..];
  }

  function Rotated(a: seq<string>, bottom: nat, middle: nat, top: nat): seq<string>
    requires bottom <= middle <= top <= |a|
  {
    a[..bottom] + a[middle..top] + a[bottom..middle] + a[top..]
  }

  // The two adjacent blocks [bottom, middle) and [middle, top) change places.
  method Exchange(argv: array<string>, firstNonopt: nat, lastNonopt: nat, optind: nat)
    requires firstNonopt <= lastNonopt <= optind <= argv.Length
    modifies argv
    ensures argv[..] == Rotated(old(argv[..]), firstNonopt, lastNonopt, optind)
  {
    hide Rotated, Swapped;
    var bottom, middle, top := firstNonopt, lastNonopt, optind;
    ghost var goal := Rotated(argv[..], bottom, middle, top);
    while top > middle && middle > bottom
      invariant firstNonopt <= bottom <= middle <= top <= optind
      invariant Rotated(argv[..], bottom, middle, top) == goal
      decreases top - bottom
    {
      ghost var a := argv[..];
      if top - middle > middle - bottom {
        var len := middle - bottom;
        SwapBlocks(argv, bottom, top - len, len);
        RotateLow(a, argv[..], bottom, middle, top);
        top := top - len;
      } else {
        var len := top - middle;
        SwapBlocks(argv, bottom, middle, len);
        RotateHigh(a, argv[..], bottom, middle, top);
        bottom := bottom + len;
      }
    }
    RotatedNothing(argv[..], bottom, middle, top);
  }

  lemma RotatedNothing(a: seq<string>, bottom: nat, middle: nat, top: nat)
    requires bottom <= middle <= top <= |a| && (bottom == middle || middle == top)
    ensures Rotated(a, bottom, middle, top) == a
  {
  }

  lemma RotateLow(a: seq<string>, b: seq<string>, bottom: nat, middle: nat, top: nat)
    requires bottom <= middle <= top <= |a| && middle - bottom < top - middle
    requires b == Swapped(a, bottom, top - (middle - bottom), middle - bottom)
    ensures |b| == |a| && Rotated(b, bottom, middle, top - (middle - bottom)) == Rotated(a, bottom, middle, top)
  {
    var len := middle - bottom;
    var p, y, x, low, r := a[..bottom], a[top - len..top], a[middle..top - len], a[bottom..middle], a[top..];
    Pieces(b, p, y, x, low, r);
    assert a[middle..top] == x + y;
    assert b[top - len..] == low + r;
    assert p + x + y + (low + r) == p + (x + y) + low + r;
  }

  lemma RotateHigh(a: seq<string>, b: seq<string>, bottom: nat, middle: nat, top: nat)
    requires bottom <= middle <= top <= |a| && top - middle <= middle - bottom
    requires b == Swapped(a, bottom, middle, top - middle)
    ensures |b| == |a| && Rotated(b, bottom + (top - middle), middle, top) == Rotated(a, bottom, middle, top)
  {
    var len := top - middle;
    var p, t, q, low, r := a[..bottom], a[middle..top], a[bottom + len..middle], a[bottom..bottom + len], a[top..];
    Pieces(b, p, t, q, low, r);
    assert a[bottom..middle] == low + q;
    assert b[..bottom + len] == p + t;
    assert p + t + low + q + r == p + t + (low + q) + r;
  }

  // my_index, as an offset; |s| stands for NULL.
  method MyIndex(s: string, c: char) returns (k: nat)
    ensures k == IndexOf(s, c)
  {
    k := 0;
    while k < |s|
      invariant k <= |s| && IndexOf(s, c) == k + IndexOf(s[k..], c)
    {
      if s[k] == c {
        return;
      }
      k := k + 1;
    }
  }

  // The search through the long options: an exact name wins at once, otherwise the first name the
  // key abbreviates, unless there is a second.
  method MatchLong(longs: seq<LongOption>, key: string) returns (m: Match)
    ensures m == Lookup(longs, key)
  {
    var pfound: Option<nat> := None;
    var ambig := false;
    var p := 0;
    while p < |longs|
      invariant p <= |longs| && FirstExact(longs, key, 0) >= p
      invariant pfound.None? ==> FirstPrefix(longs, key, 0) >= p && !ambig
      invariant pfound.Some? ==> pfound.value == FirstPrefix(longs, key, 0) < p
      invariant pfound.Some? ==> (ambig <==> FirstPrefix(longs, key, pfound.value + 1) < p)
    {
      if key <= longs[p].name {
        if |key| == |longs[p].name| {
          assert longs[p].name == key;
          return Found(p);
        } else if pfound.None? {
          pfound := Some(p);
        } else {
          ambig := true;
        }
      }
      p := p + 1;
    }
    if ambig {
      return Ambiguous;
    }
    return if pfound.Some? then Found(pfound.value) else NotFound;
  }

  function OrderingOf(optstring: string): Ordering {
    if optstring != "" && optstring[0] == '-' then ReturnInOrder
    else if optstring != "" && optstring[0] == '+' then RequireOrder
    else Permute
  }

  // The first call drops a leading sign; the later ones are given the string with it again.
  function Stripped(optstring: string): string {
    if OrderingOf(optstring).Permute? then optstring else optstring[1..]
  }

  // "W;" in the option string turns -W foo into --foo, which is not modelled.
  predicate NoLongW(optstring: string) {
    forall i :: 0 <= i < |optstring| - 1 ==> !(optstring[i] == 'W' && optstring[i + 1] == ';')
  }

  function Min(a: nat, b: nat): nat { if a < b then a else b }

  // The options passed, the operands skipped and the rest, as the three indices cut them out.
  function View(a: seq<string>, start: nat, first: nat, last: nat, at: nat, next: string): (s: Scan)
    requires start <= first <= last <= at <= |a|
    ensures s.next == next && s.todo == a[at..]
  {
    Scan(a[start..first] + a[last..at], a[first..last], next, a[at..])
  }

  datatype Verdict = End | Passed | Element

  // The static variables of getopt.c, with the vector and the option tables of one run.
  class Scanner {
    const argv: array<string>
    const optstring: string
    const longs: Option<seq<LongOption>>
    ghost const start: nat
    ghost var over: bool

    var optind: nat
    var optarg: Option<string>
    var optopt: int
    var longind: nat
    var initialized: bool
    var firstNonopt: nat
    var lastNonopt: nat
    var nextchar: string
    var ordering: Ordering

    ghost predicate Scanning()
      reads `initialized, `over, `ordering, `firstNonopt, `lastNonopt, `optind, `nextchar
    {
      && initialized && !over && ordering == OrderingOf(optstring)
      && 1 <= start <= firstNonopt <= lastNonopt <= argv.Length && start <= optind <= argv.Length
      && (!ordering.Permute? ==> firstNonopt == lastNonopt == start)
      // Between elements the caller may move pj_optind back.
      && (nextchar != "" ==> lastNonopt <= optind)
    }

    ghost predicate Valid()
      reads `initialized, `over, `ordering, `firstNonopt, `lastNonopt, `optind, `nextchar, argv
    {
      && (if initialized then Scanning() else 1 <= start <= argv.Length && !over && optind == start)
      && ScanOk(SyntaxNow(), Value())
      && NoLongW(optstring)
    }

    ghost function SyntaxNow(): Syntax
      reads `initialized
    {
      Syntax(if initialized then optstring else Stripped(optstring), longs)
    }

    ghost function Value(): (s: Scan)
      requires initialized ==> Scanning()
      requires !initialized ==> start <= argv.Length
      ensures s.next == (if initialized then nextchar else "")
      ensures s.todo == argv[if initialized then optind else start..]
      reads `initialized, `over, `ordering, `firstNonopt, `lastNonopt, `optind, `nextchar, argv
    {
      if !initialized then Scan([], [], "", argv[start..])
      else View(argv[..], start, Min(firstNonopt, optind), Min(lastNonopt, optind), optind, nextchar)
    }

    // pj_optind is 1 unless the caller has set it.
    constructor (argv: array<string>, optstring: string, longs: Option<seq<LongOption>>, optind: nat)
      requires 1 <= optind <= argv.Length && NoLongW(optstring)
      ensures Valid() && this.argv == argv && this.optstring == optstring && this.longs == longs && start == optind
      ensures !initialized && Value() == Scan([], [], "", argv[optind..])
    {
      this.argv, this.optstring, this.longs := argv, optstring, longs;
      this.optind, start := optind, optind;
      initialized, over, nextchar, optarg := false, false, "", None;
    }

    // What the caller finds once -1 has been returned.
    ghost predicate Finished(prefix: seq<string>, c: Scan)
      reads `over, `optarg, `optind, argv
    {
      && over && optarg.None?
      && optind == |prefix| + |c.done|
      && argv[..] == prefix + c.done + c.skipped
    }

    // _getopt_internal with long_only off.
    method Next() returns (code: int)
      requires Valid()
      modifies this, argv
      ensures var c := NextCall(OrderingOf(optstring), old(SyntaxNow()), old(Value()));
              match c.outcome
              case None => code == -1 && Finished(old(argv[..start]), c.scan)
              case Some(o) =>
                && Valid() && initialized && Value() == c.scan && argv[..start] == old(argv[..start])
                && code == o.code && optarg == o.arg
                && optopt == (if o.optopt.Some? then o.optopt.value else old(optopt))
                && longind == (if o.longind.Some? then o.longind.value else old(longind))
    {
      hide NextCall, Skip, Ends, EndOf, NonOption, Start, IsLong, Operands, Value, Finished, OrderingOf, Stripped, PassElement;
      optarg := None;
      var shorts := optstring;
      ghost var s, x, ord := Value(), SyntaxNow(), OrderingOf(optstring);
      NextCallIs(ord, x, s);
      if !initialized {
        shorts := Initialize();
      }
      if nextchar == "" {
        SameLongs(x, Syntax(optstring, longs));
        var verdict := Advance();
        match verdict {
          case End => return -1;
          case Passed => return 1;
          case Element =>
        }
      }
      SameLongs(x, Syntax(optstring, longs));
      code := PassOption(shorts);
    }

    // The current element: a long option as a whole, or the next character of a cluster.
    method PassOption(shorts: string) returns (code: int)
      requires Scanning() && lastNonopt <= optind && optarg.None?
      requires Value().todo != [] && (nextchar != "" || IsLong(Syntax(shorts, longs), Value().todo[0]))
      modifies `optind, `nextchar, `optarg, `optopt, `longind
      ensures var c := PassElement(Syntax(shorts, longs), old(Value()));
              var o := c.outcome.value;
              && Scanning() && ScanOk(Syntax(shorts, longs), Value()) && Value() == c.scan
              && code == o.code && optarg == o.arg
              && optopt == (if o.optopt.Some? then o.optopt.value else old(optopt))
              && longind == (if o.longind.Some? then o.longind.value else old(longind))
    {
      hide PassElement, ScanShort, ScanLong, ScanElement, OrderingOf, NonOption, View, IsLong, ScanOk, NoLongW;
      ghost var t, at := Value(), optind;
      PassElementIs(Syntax(shorts, longs), t);
      code := DoOption(shorts);
      AdvancedView(argv[..], start, firstNonopt, lastNonopt, at, optind, t.next, nextchar);
    }

    method DoOption(shorts: string) returns (code: int)
      requires Scanning() && optind < argv.Length && optarg.None?
      requires nextchar != "" || IsLong(Syntax(shorts, longs), argv[optind])
      modifies `optind, `nextchar, `optarg, `optopt, `longind
      ensures var e := argv[old(optind)];
              var o := if IsLong(Syntax(shorts, longs), e) then ScanLong(shorts, longs.value, old(nextchar), Following(argv[old(optind)..]))
                       else ScanShort(shorts, old(nextchar), Following(argv[old(optind)..]));
              && optind == old(optind) + o.took && nextchar == o.next
              && code == o.code && optarg == o.arg
              && optopt == (if o.optopt.Some? then o.optopt.value else old(optopt))
              && longind == (if o.longind.Some? then o.longind.value else old(longind))
    {
      hide ScanShort, ScanLong, OrderingOf, NoLongW;
      if IsLong(Syntax(shorts, longs), argv[optind]) {
        code := DoLong(shorts);
      } else {
        code := DoShort(shorts);
      }
    }

    // Look at and handle the next short option character.
    method DoShort(shorts: string) returns (code: int)
      requires Scanning() && nextchar != "" && optind < argv.Length && optarg.None?
      modifies `optind, `nextchar, `optarg, `optopt
      ensures var o := ScanShort(shorts, old(nextchar), Following(argv[old(optind)..]));
              && optind == old(optind) + o.took && nextchar == o.next
              && code == o.code && optarg == o.arg && o.longind.None?
              && optopt == (if o.optopt.Some? then o.optopt.value else old(optopt))
    {
      var c := nextchar[0];
      nextchar := nextchar[1..];
      var temp := MyIndex(shorts, c);
      if nextchar == "" {
        optind := optind + 1;
      }
      if temp == |shorts| || c == ':' {
        optopt := c as int;
        return QUESTION;
      }
      code := c as int;
      if temp + 1 < |shorts| && shorts[temp + 1] == ':' {
        if temp + 2 < |shorts| && shorts[temp + 2] == ':' {
          if nextchar != "" {
            optarg := Some(nextchar);
            optind := optind + 1;
          } else {
            optarg := None;
          }
          nextchar := "";
        } else {
          if nextchar != "" {
            optarg := Some(nextchar);
            optind := optind + 1;
          } else if optind == argv.Length {
            optopt := c as int;
            code := if shorts != "" && shorts[0] == ':' then COLON else QUESTION;
          } else {
            optarg := Some(argv[optind]);
            optind := optind + 1;
          }
          nextchar := "";
        }
      }
    }

    // Decode a long option element.
    method DoLong(shorts: string) returns (code: int)
      requires Scanning() && longs.Some? && optind < argv.Length && optarg.None?
      modifies `optind, `nextchar, `optarg, `optopt, `longind
      ensures var o := ScanLong(shorts, longs.value, old(nextchar), Following(argv[old(optind)..]));
              && optind == old(optind) + o.took && nextchar == o.next
              && code == o.code && optarg == o.arg
              && optopt == (if o.optopt.Some? then o.optopt.value else old(optopt))
              && longind == (if o.longind.Some? then o.longind.value else old(longind))
    {
      var nameend := MyIndex(nextchar, '=');
      var m := MatchLong(longs.value, nextchar[..nameend]);
      if m.Ambiguous? {
        nextchar := "";
        optind := optind + 1;
        optopt := 0;
        return QUESTION;
      }
      if m.Found? {
        var pfound := longs.value[m.index];
        optind := optind + 1;
        if nameend < |nextchar| {
          if pfound.hasArg != 0 {
            optarg := Some(nextchar[nameend + 1..]);
          } else {
            nextchar := "";
            optopt := pfound.val;
            return QUESTION;
          }
        } else if pfound.hasArg == 1 {
          if optind < argv.Length {
            optarg := Some(argv[optind]);
            optind := optind + 1;
          } else {
            nextchar := "";
            optopt := pfound.val;
            return if shorts != "" && shorts[0] == ':' then COLON else QUESTION;
          }
        }
        nextchar := "";
        longind := m.index;
        return if pfound.flagged then 0 else pfound.val;
      }
      nextchar := "";
      optind := optind + 1;
      optopt := 0;
      return QUESTION;
    }

    // _getopt_initialize
    method Initialize() returns (shorts: string)
      requires !initialized && Valid()
      modifies this
      ensures Scanning() && nextchar == "" && Value() == old(Value()) && unchanged(`optarg, `optopt, `longind)
      ensures shorts == Stripped(optstring)
    {
      firstNonopt, lastNonopt := optind, optind;
      nextchar := "";
      shorts := optstring;
      if optstring != "" && optstring[0] == '-' {
        ordering := ReturnInOrder;
        shorts := shorts[1..];
      } else if optstring != "" && optstring[0] == '+' {
        ordering := RequireOrder;
        shorts := shorts[1..];
      } else {
        ordering := Permute;
      }
      initialized := true;
    }

    // `exchange` with its two records updated.
    method ExchangeSegments()
      requires firstNonopt <= lastNonopt <= optind <= argv.Length
      modifies argv, `firstNonopt, `lastNonopt
      ensures firstNonopt == old(firstNonopt) + (optind - old(lastNonopt)) && lastNonopt == optind
      ensures var was := old(argv[..]);
              && argv[..old(firstNonopt)] == was[..old(firstNonopt)]
              && argv[old(firstNonopt)..firstNonopt] == was[old(lastNonopt)..optind]
              && argv[firstNonopt..optind] == was[old(firstNonopt)..old(lastNonopt)]
              && argv[optind..] == was[optind..]
    {
      ghost var was := argv[..];
      Exchange(argv, firstNonopt, lastNonopt, optind);
      var f, l := firstNonopt, lastNonopt;
      RotatedParts(was, argv[..], f, l, optind);
      firstNonopt := firstNonopt + (optind - lastNonopt);
      lastNonopt := optind;
    }

    // Bring the options just passed in front of the operands skipped before them.
    method Settle()
      requires Scanning() && lastNonopt <= optind
      modifies argv, `firstNonopt, `lastNonopt
      ensures argv[optind..] == old(Value()).todo
      ensures start <= firstNonopt <= optind && lastNonopt <= optind
      ensures argv[..start] == old(argv[..start]) && argv[optind..] == old(argv[optind..])
      ensures argv[start..firstNonopt] == old(Value()).done && argv[firstNonopt..optind] == old(Value()).skipped
    {
      ghost var f, l := firstNonopt, lastNonopt;
      ghost var was := argv[..];
      if firstNonopt != lastNonopt && lastNonopt != optind {
        ExchangeSegments();
        assert argv[..start] == argv[..f][..start];
        assert argv[start..firstNonopt] == argv[..f][start..] + argv[f..firstNonopt];
      } else if lastNonopt != optind {
        firstNonopt := optind;
        assert was[start..f] + was[l..optind] == was[start..optind];
      }
    }

    // Skip operands; the ones before them are right behind the options.
    method SkipLoop()
      requires firstNonopt <= optind <= argv.Length
      modifies `lastNonopt, `optind
      ensures optind == old(optind) + Operands(argv[old(optind)..]) <= argv.Length && lastNonopt == optind
    {
      ghost var from := optind;
      while optind < argv.Length && NonOption(argv[optind])
        invariant from <= optind <= argv.Length
        invariant Operands(argv[from..]) == optind - from + Operands(argv[optind..])
      {
        assert argv[optind..][1..] == argv[optind + 1..];
        optind := optind + 1;
      }
      lastNonopt := optind;
    }

    // Give the two records rational values if the caller has moved pj_optind back.
    method Clamp()
      requires Scanning()
      modifies `firstNonopt, `lastNonopt
      ensures Scanning() && lastNonopt <= optind && Value() == old(Value())
    {
      if lastNonopt > optind {
        lastNonopt := optind;
      }
      if firstNonopt > optind {
        firstNonopt := optind;
      }
    }

    method SkipOperands()
      requires Scanning() && nextchar == ""
      modifies argv, `firstNonopt, `lastNonopt, `optind
      ensures Scanning() && argv[..start] == old(argv[..start])
      ensures Value() == Skip(ordering, old(Value()))
      ensures lastNonopt <= optind && (ordering.Permute? ==> lastNonopt == optind)
    {
      hide Operands, View, Skip;
      Clamp();
      ghost var s := Value();
      if ordering.Permute? {
        Settle();
        ghost var from := optind;
        SkipLoop();
        SkipView(argv[..], start, firstNonopt, from, optind, s);
      } else {
        SkipNone(ordering, s);
      }
    }

    // "--": an option as far as moving goes, and everything behind it an operand.
    method PassDashes()
      requires Scanning() && lastNonopt <= optind && (ordering.Permute? ==> lastNonopt == optind) && nextchar == ""
      requires optind < argv.Length && argv[optind] == "--"
      modifies argv, `firstNonopt, `lastNonopt, `optind
      ensures optind == lastNonopt == argv.Length && start <= firstNonopt <= argv.Length
      ensures argv[..start] == old(argv[..start])
      ensures argv[start..firstNonopt] == old(Value()).done + ["--"]
      ensures argv[firstNonopt..] == old(Value()).skipped + old(Value()).todo[1..]
    {
      ghost var was, f, l, o := argv[..], firstNonopt, lastNonopt, optind;
      optind := optind + 1;
      if firstNonopt != lastNonopt && lastNonopt != optind {
        ExchangeSegments();
        DashesMoved(was, argv[..], start, f, o);
      } else if firstNonopt == lastNonopt {
        firstNonopt := optind;
        DashesPassed(was, start, f, o);
      }
      lastNonopt := argv.Length;
      optind := argv.Length;
    }

    // From the end of one element to the next option element, or to the end of the run.
    method Advance() returns (verdict: Verdict)
      requires Scanning() && nextchar == "" && optarg.None?
      modifies argv, `firstNonopt, `lastNonopt, `optind, `nextchar, `optarg, `over
      ensures var t := Skip(ordering, old(Value()));
              match verdict
              case End => Ends(ordering, t) && Finished(old(argv[..start]), EndOf(ordering, t))
              case Passed =>
                && !Ends(ordering, t) && NonOption(t.todo[0])
                && Scanning() && Value() == Scan(t.done + [t.todo[0]], t.skipped, "", t.todo[1..]) && optarg == Some(t.todo[0])
              case Element =>
                && !Ends(ordering, t) && t.todo != [] && !NonOption(t.todo[0])
                && Scanning() && Value() == t.(next := Start(Syntax(optstring, longs), t.todo[0])) && optarg.None? && lastNonopt <= optind
      ensures argv[..start] == old(argv[..start])
    {
      hide Skip, Start, IsLong, NonOption, EndOf, Ends, View;
      NotDashes();
      SkipOperands();
      ghost var t := Value();
      EndsIs(ordering, t);
      if optind != argv.Length && argv[optind] == "--" {
        PassDashes();
        DashesEnd(argv[..], start, firstNonopt, ordering, t);
      } else if optind == argv.Length || (NonOption(argv[optind]) && ordering.RequireOrder?) {
        EndPieces(argv[..], start, firstNonopt, lastNonopt, optind, ordering, t);
      }
      if optind == argv.Length {
        if firstNonopt != lastNonopt {
          optind := firstNonopt;
        }
        over := true;
        return End;
      }
      if NonOption(argv[optind]) {
        if ordering.RequireOrder? {
          over := true;
          return End;
        }
        HandBack();
        return Passed;
      }
      OpenOption();
      return Element;
    }

    // A non-option in its place, returned to the caller.
    method HandBack()
      requires Scanning() && nextchar == "" && lastNonopt <= optind < argv.Length
      modifies `optind, `optarg
      ensures Scanning() && optarg == Some(argv[old(optind)])
      ensures var t := old(Value()); Value() == Scan(t.done + [t.todo[0]], t.skipped, "", t.todo[1..])
    {
      hide OrderingOf, View;
      ghost var t, at := Value(), optind;
      optarg := Some(argv[optind]);
      optind := optind + 1;
      AdvancedView(argv[..], start, firstNonopt, lastNonopt, at, optind, "", "");
      assert t.todo[..1] == [t.todo[0]];
    }

    // The first look at an option element.
    method OpenOption()
      requires Scanning() && nextchar == "" && lastNonopt <= optind < argv.Length && !NonOption(argv[optind])
      modifies `nextchar
      ensures Scanning()
      ensures var t := old(Value()); Value() == t.(next := Start(Syntax(optstring, longs), t.todo[0]))
    {
      hide OrderingOf, View, Start, IsLong, NonOption;
      StartIs(Syntax(optstring, longs), argv[optind]);
      NextOf(argv[..], start, firstNonopt, lastNonopt, optind, Start(Syntax(optstring, longs), argv[optind]));
      nextchar := if IsLong(Syntax(optstring, longs), argv[optind]) then argv[optind][2..] else argv[optind][1..];
    }
  }

  lemma SameLongs(x: Syntax, y: Syntax)
    requires x.longs == y.longs
    ensures forall e :: IsLong(x, e) == IsLong(y, e)
    ensures forall e :: !NonOption(e) ==> Start(x, e) == Start(y, e)
    ensures forall s :: ScanOk(x, s) == ScanOk(y, s)
  {
  }

  // NextCall in the steps the code takes.
  lemma NextCallIs(ordering: Ordering, x: Syntax, s: Scan)
    requires ScanOk(x, s)
    ensures s.next != "" ==> s.todo != [] && !IsLong(x, s.todo[0]) && NextCall(ordering, x, s) == PassElement(x, s)
    ensures var t := Skip(ordering, s);
            s.next == "" ==>
              if Ends(ordering, t) then NextCall(ordering, x, s) == Call(EndOf(ordering, t), None)
              else if NonOption(t.todo[0]) then
                NextCall(ordering, x, s) == Call(Scan(t.done + [t.todo[0]], t.skipped, "", t.todo[1..]), Some(Outcome(1, Some(t.todo[0]), None, None, "", 1)))
              else
                && (IsLong(x, t.todo[0]) || Start(x, t.todo[0]) != "")
                && NextCall(ordering, x, s) == PassElement(x, t.(next := Start(x, t.todo[0])))
  {
    hide ScanElement, Operands;
  }

  lemma PassElementIs(x: Syntax, s: Scan)
    requires s.todo != [] && (s.next != "" || IsLong(x, s.todo[0]))
    ensures var o := if IsLong(x, s.todo[0]) then ScanLong(x.shorts, x.longs.value, s.next, Following(s.todo))
                     else ScanShort(x.shorts, s.next, Following(s.todo));
            && PassElement(x, s) == Call(Scan(s.done + s.todo[..o.took], s.skipped, o.next, s.todo[o.took..]), Some(o))
            && ScanOk(x, PassElement(x, s).scan)
  {
    hide ScanLong, ScanShort;
  }

  // Moving optind on over elements of the current option.
  lemma AdvancedView(a: seq<string>, start: nat, first: nat, last: nat, at: nat, now: nat, next: string, next': string)
    requires start <= first <= last <= at <= now <= |a|
    ensures var v := View(a, start, first, last, at, next);
            View(a, start, first, last, now, next') == Scan(v.done + v.todo[..now - at], v.skipped, next', v.todo[now - at..])
  {
    SlicesJoin(a, last, at, now);
    SliceOfTail(a, at, now);
    AppendAssociates(a[start..first], a[last..at], a[at..now]);
  }

  lemma SlicesJoin(a: seq<string>, low: nat, mid: nat, high: nat)
    requires low <= mid <= high <= |a|
    ensures a[low..high] == a[low..mid] + a[mid..high]
  {
  }

  lemma SliceOfTail(a: seq<string>, at: nat, now: nat)
    requires at <= now <= |a|
    ensures a[at..][..now - at] == a[at..now] && a[at..][now - at..] == a[now..]
  {
  }

  lemma NextOf(a: seq<string>, start: nat, first: nat, last: nat, at: nat, next: string)
    requires start <= first <= last <= at <= |a|
    ensures View(a, start, first, last, at, next) == View(a, start, first, last, at, "").(next := next)
  {
  }

  lemma StartIs(x: Syntax, e: string)
    requires !NonOption(e)
    ensures |e| > 1 && Start(x, e) == if IsLong(x, e) then e[2..] else e[1..]
  {
  }

  lemma NotDashes()
    ensures !NonOption("--")
  {
  }

  lemma EndsIs(ordering: Ordering, t: Scan)
    ensures Ends(ordering, t) <==> t.todo == [] || t.todo[0] == "--" || (NonOption(t.todo[0]) && ordering.RequireOrder?)
  {
  }

  lemma DashesEnd(a: seq<string>, start: nat, first: nat, ordering: Ordering, t: Scan)
    requires start <= first <= |a| && t.todo != [] && t.todo[0] == "--"
    requires a[start..first] == t.done + ["--"] && a[first..] == t.skipped + t.todo[1..]
    ensures Ends(ordering, t)
    ensures var e := EndOf(ordering, t); a == a[..start] + e.done + e.skipped && start + |e.done| == first
  {
    assert a == a[..start] + a[start..first] + a[first..];
  }

  lemma DashesMoved(was: seq<string>, now: seq<string>, start: nat, f: nat, o: nat)
    requires start <= f <= o < |was| == |now| && was[o] == "--"
    requires now[..f] == was[..f] && now[f..f + 1] == was[o..o + 1]
    requires now[f + 1..o + 1] == was[f..o] && now[o + 1..] == was[o + 1..]
    ensures now[..start] == was[..start]
    ensures now[start..f + 1] == (was[start..f] + was[o..o]) + ["--"]
    ensures now[f + 1..] == was[f..o] + was[o..][1..]
  {
    assert now[..start] == now[..f][..start] && was[..start] == was[..f][..start];
    assert now[start..f + 1] == now[..f][start..] + now[f..f + 1];
    assert now[f + 1..] == now[f + 1..o + 1] + now[o + 1..];
  }

  lemma DashesPassed(was: seq<string>, start: nat, f: nat, o: nat)
    requires start <= f <= o < |was| && was[o] == "--"
    ensures was[start..o + 1] == (was[start..f] + was[f..o]) + ["--"]
    ensures was[o + 1..] == was[f..f] + was[o..][1..]
  {
  }

  // Nothing left to scan: done, skipped and what is ahead make up the vector.
  lemma EndPieces(a: seq<string>, start: nat, first: nat, last: nat, at: nat, ordering: Ordering, t: Scan)
    requires start <= first <= last <= at <= |a| && (first == last || last == at)
    requires t == View(a, start, first, last, at, "")
    requires t.todo == [] || (t.todo[0] != "--" && NonOption(t.todo[0]) && ordering.RequireOrder?)
    ensures Ends(ordering, t)
    ensures var e := EndOf(ordering, t);
            && a == a[..start] + e.done + e.skipped
            && start + |e.done| == if first == last then at else first
  {
    if first == last {
      assert a[start..first] + a[last..at] == a[start..at] && a[first..last] == [];
      assert a == a[..start] + a[start..at] + a[at..];
    } else {
      assert a[last..at] == [] && a[start..first] + [] == a[start..first];
      assert a == a[..start] + a[start..first] + (a[first..last] + a[at..]);
    }
  }

  lemma SkipView(a: seq<string>, start: nat, first: nat, mid: nat, at: nat, s: Scan)
    requires start <= first <= mid <= at <= |a| && at - mid == Operands(a[mid..])
    requires a[start..first] == s.done && a[first..mid] == s.skipped && a[mid..] == s.todo
    ensures View(a, start, first, at, at, "") == Skip(Permute, s)
  {
    hide Operands;
    assert a[first..at] == a[first..mid] + a[mid..][..at - mid] && a[at..] == a[mid..][at - mid..];
    assert a[start..first] + a[at..at] == a[start..first];
  }

  lemma SkipNone(ordering: Ordering, s: Scan)
    requires !ordering.Permute? && s.next == ""
    ensures Skip(ordering, s) == s
  {
    assert s.todo[..0] == [] && s.todo[0..] == s.todo && s.skipped + [] == s.skipped;
  }

  lemma RotatedParts(a: seq<string>, b: seq<string>, f: nat, l: nat, o: nat)
    requires f <= l <= o <= |a| && b == Rotated(a, f, l, o)
    ensures |b| == |a| && b[..f] == a[..f] && b[f..f + (o - l)] == a[l..o]
    ensures b[f + (o - l)..o] == a[f..l] && b[o..] == a[o..]
  {
  }

  function Skip(ordering: Ordering, s: Scan): Scan {
    var n := if ordering.Permute? then Operands(s.todo) else 0;
    Scan(s.done, s.skipped + s.todo[..n], "", s.todo[n..])
  }

  predicate Ends(ordering: Ordering, t: Scan) {
    t.todo == [] || t.todo[0] == "--" || (NonOption(t.todo[0]) && ordering.RequireOrder?)
  }

  function EndOf(ordering: Ordering, t: Scan): Scan
    requires Ends(ordering, t)
  {
    if t.todo == [] then Scan(t.done, t.skipped, "", [])
    else if t.todo[0] == "--" then Scan(t.done + ["--"], t.skipped + t.todo[1..], "", [])
    else Scan(t.done, t.skipped + t.todo, "", [])
  }

  // -1 is kept for the end of the run unless a long option is given that very value.
  predicate NoneReturnsMinusOne(longs: Option<seq<LongOption>>) {
    longs.Some? ==> forall i :: 0 <= i < |longs.value| ==> longs.value[i].val != -1
  }

  lemma CodeIsNotEnd(x: Syntax, s: Scan)
    requires ScanOk(x, s) && NoneReturnsMinusOne(x.longs)
    ensures var c := NextCall(Permute, x, s); c.outcome.Some? ==> c.outcome.value.code != -1
  {
    hide Operands, IndexOf, Lookup, KindOf, ScanOk;
    var c := NextCall(Permute, x, s);
  }

  lemma RunStep(x: Syntax, s: Scan)
    requires ScanOk(x, s)
    ensures var c := NextCall(Permute, x, s);
            && Run(Permute, x, s).scan == (if c.outcome.None? then c.scan else Run(Permute, x, c.scan).scan)
            && (c.outcome.Some? ==> |c.scan.todo| < |s.todo| || (|c.scan.todo| == |s.todo| && Left(c.scan) < Left(s)))
  {
    hide NextCall;
    Progress(Permute, x, s);
  }

  // Main result: calling until -1 comes back ends, and leaves the options with their arguments
  // first and the operands behind, each in the order the vector had them; pj_optind points between.
  method ScanAll(argv: array<string>, optstring: string, longs: Option<seq<LongOption>>) returns (optind: nat)
    requires argv.Length >= 1 && NoLongW(optstring) && OrderingOf(optstring).Permute? && NoneReturnsMinusOne(longs)
    modifies argv
    ensures var args, x := old(argv[1..]), Syntax(optstring, longs);
            var options := Select(args, Roles(x, args), OptionPart);
            && argv[..] == [old(argv[0])] + options + Select(args, Roles(x, args), Operand)
            && optind == 1 + |options|
    ensures multiset(argv[..]) == multiset(old(argv[..]))
  {
    hide Roles, Select, Run, NextCall, NoLongW, NoneReturnsMinusOne, OrderingOf;
    ghost var args, x, prefix := argv[1..], Syntax(optstring, longs), argv[..1];
    assert argv[..] == prefix + args && prefix == [argv[0]];
    var scanner := new Scanner(argv, optstring, longs, 1);
    StrippedIs(optstring);
    ghost var end := Run(Permute, x, scanner.Value()).scan;
    RunPartitions(x, args);
    var code := 0;
    while code != -1
      invariant code != -1 ==> scanner.Valid() && end == Run(Permute, x, scanner.Value()).scan && argv[..1] == prefix
      invariant code == -1 ==> scanner.Finished(prefix, end)
      invariant scanner.argv == argv && scanner.optstring == optstring && scanner.longs == longs && scanner.start == 1
      invariant fresh(scanner) && |prefix| == 1
      decreases code != -1, if code != -1 then |scanner.Value().todo| else 0, if code != -1 then Left(scanner.Value()) else 0
    {
      RunStep(x, scanner.Value());
      CodeIsNotEnd(x, scanner.Value());
      assert scanner.SyntaxNow() == x;
      code := scanner.Next();
    }
    optind := scanner.optind;
    assert argv[..] == prefix + end.done + end.skipped;
    assert multiset(argv[..]) == multiset(prefix) + multiset(end.done + end.skipped);
  }

  lemma StrippedIs(optstring: string)
    requires OrderingOf(optstring).Permute?
    ensures Stripped(optstring) == optstring
  {
  }
}
