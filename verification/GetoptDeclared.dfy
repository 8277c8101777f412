/** What an option string declares, and what the scan makes of the declarations. */
module GetoptDeclared {
  import opened Bytes
  import opened GetoptSpec
  import opened GetoptRun
  import Getopt

  datatype Arity = Never | Always | Perhaps

  datatype Declaration = Declaration(c: char, arity: Arity)

  // One colon for an argument, two for an argument that may be left out.
  function Colons(a: Arity): string { match a case Never => "" case Always => ":" case Perhaps => "::" }

  function Render(ds: seq<Declaration>): string {
    if ds == [] then "" else [ds[0].c] + Colons(ds[0].arity) + Render(ds[1..])
  }

  predicate NoColon(ds: seq<Declaration>) { forall d :: d in ds ==> d.c != ':' }

  // The declaration that counts is the first one.
  predicate Declares(ds: seq<Declaration>, c: char, a: Arity) {
    exists k :: 0 <= k < |ds| && ds[k] == Declaration(c, a) && forall i :: 0 <= i < k ==> ds[i].c != c
  }

  predicate Undeclared(ds: seq<Declaration>, c: char) { forall d :: d in ds ==> d.c != c }

  function KindFor(a: Arity): ShortKind { match a case Never => NoArg case Always => Required case Perhaps => Optional }

  lemma KindOfFirst(d: Declaration, rest: string)
    requires d.c != ':' && (rest == "" || rest[0] != ':')
    ensures KindOf([d.c] + Colons(d.arity) + rest, d.c) == KindFor(d.arity)
  {
    var s := [d.c] + Colons(d.arity) + rest;
    assert IndexOf(s, d.c) == 0;
    match d.arity
    case Never => assert |s| > 1 ==> s[1] == rest[0];
    case Always => assert s[1] == ':' && (|s| > 2 ==> s[2] == rest[0]);
    case Perhaps => assert s[1] == ':' && s[2] == ':';
  }

  lemma {:induction false} IndexBehind(s: string, rest: string, c: char)
    requires c !in s
    ensures IndexOf(s + rest, c) == |s| + IndexOf(rest, c)
    decreases |s|
  {
    if s == [] {
      assert s + rest == rest;
    } else {
      assert (s + rest)[1..] == s[1..] + rest;
      IndexBehind(s[1..], rest, c);
    }
  }

  lemma KindOfBehind(s: string, rest: string, c: char)
    requires c !in s
    ensures KindOf(s + rest, c) == KindOf(rest, c)
  {
    IndexBehind(s, rest, c);
    var k := IndexOf(rest, c);
    assert forall i :: 0 <= i < |rest| ==> (s + rest)[|s| + i] == rest[i];
  }

  lemma RenderStart(ds: seq<Declaration>)
    requires NoColon(ds)
    ensures Render(ds) == "" || Render(ds)[0] != ':'
  {
    if ds != [] {
      assert ds[0] in ds;
    }
  }

  // Main result on declarations: a character has the kind of its first declaration, or none.
  lemma {:induction false} KindsAreDeclared(ds: seq<Declaration>, c: char)
    requires NoColon(ds) && c != ':'
    ensures forall a :: Declares(ds, c, a) ==> KindOf(Render(ds), c) == KindFor(a)
    ensures Undeclared(ds, c) ==> KindOf(Render(ds), c) == Unknown
    decreases |ds|
  {
    hide KindOf;
    if ds == [] {
      NothingDeclared(c);
    } else {
      var d, rest := ds[0], ds[1..];
      assert forall x :: x in rest ==> x in ds;
      RenderStart(rest);
      if d.c == c {
        KindOfFirst(d, Render(rest));
        assert !Undeclared(ds, c);
      } else {
        KindOfBehind([d.c] + Colons(d.arity), Render(rest), c);
        KindsAreDeclared(rest, c);
        forall a | Declares(ds, c, a) ensures Declares(rest, c, a) {
          DeclaredBehind(ds, c, a);
        }
      }
    }
  }

  lemma NothingDeclared(c: char)
    ensures KindOf("", c) == Unknown
  {
  }

  lemma DeclaredBehind(ds: seq<Declaration>, c: char, a: Arity)
    requires ds != [] && ds[0].c != c && Declares(ds, c, a)
    ensures Declares(ds[1..], c, a)
  {
    var k :| 0 <= k < |ds| && ds[k] == Declaration(c, a) && forall i :: 0 <= i < k ==> ds[i].c != c;
    assert ds[1..][k - 1] == ds[k] && forall i :: 0 <= i < k - 1 ==> ds[1..][i] == ds[i + 1];
  }

  // What one option character does, by its declaration: an option that always has an argument takes the text behind
  // it or else the next element; one that perhaps has one takes the text behind it and never the next element.
  lemma CharacterScanned(ds: seq<Declaration>, c: char, a: Arity, text: string, following: Option<string>)
    requires NoColon(ds) && c != ':' && Declares(ds, c, a)
    ensures var o := ScanShort(Render(ds), [c] + text, following);
            match a
            case Never => o.code == c as int && o.arg == None && o.next == text && o.took == if text == "" then 1 else 0
            case Always =>
              if text != "" then o.code == c as int && o.arg == Some(text) && o.took == 1
              else if following.Some? then o.code == c as int && o.arg == following && o.took == 2
              else o.code == '?' as int && o.optopt == Some(c as int) && o.arg == None && o.took == 1
            case Perhaps =>
              o.code == c as int && o.took == 1 && o.arg == if text != "" then Some(text) else None
  {
    hide KindOf;
    KindsAreDeclared(ds, c);
    RenderStart(ds);
    assert ([c] + text)[1..] == text;
  }

  lemma CharacterRefused(ds: seq<Declaration>, c: char, text: string, following: Option<string>)
    requires NoColon(ds) && (c == ':' || Undeclared(ds, c))
    ensures var o := ScanShort(Render(ds), [c] + text, following);
            o.code == '?' as int && o.optopt == Some(c as int) && o.arg == None && o.next == text
  {
    hide IndexOf;
    if c != ':' {
      KindsAreDeclared(ds, c);
    }
    assert ([c] + text)[1..] == text;
  }

  // With a colon in front of the declarations nothing changes but the report of a missing argument.
  lemma ColonReportsMissing(ds: seq<Declaration>, c: char, text: string, following: Option<string>)
    requires NoColon(ds) && c != ':'
    ensures var quiet, loud := ScanShort(":" + Render(ds), [c] + text, following), ScanShort(Render(ds), [c] + text, following);
            if Declares(ds, c, Always) && text == "" && following.None? then loud.code == '?' as int && quiet == loud.(code := ':' as int)
            else quiet == loud
  {
    hide KindOf, Declares, Render;
    RenderStart(ds);
    KindOfBehind(":", Render(ds), c);
    KindByDeclaration(ds, c);
    assert ([c] + text)[1..] == text;
    assert (":" + Render(ds))[0] == ':';
  }

  // An element of short options takes the next one exactly when its last character always has an argument, and no
  // character before that can have one.
  lemma {:induction false} ClusterTakesExactly(ds: seq<Declaration>, w: string)
    requires NoColon(ds)
    ensures ClusterTakes(Render(ds), w)
       <==> w != "" && w[|w| - 1] != ':' && Declares(ds, w[|w| - 1], Always)
            && forall i :: 0 <= i < |w| - 1 ==> w[i] == ':' || Undeclared(ds, w[i]) || Declares(ds, w[i], Never)
    decreases |w|
  {
    hide KindOf, Undeclared, Declares;
    if w != "" {
      KindByDeclaration(ds, w[0]);
      ClusterTakesExactly(ds, w[1..]);
      if |w| > 1 {
        assert w[1..][|w| - 2] == w[|w| - 1] && forall i :: 0 <= i < |w| - 2 ==> w[1..][i] == w[i + 1];
        assert forall i :: 1 <= i < |w| - 1 ==> w[i] == w[1..][i - 1];
      } else {
        assert w[1..] == "" && !ClusterTakes(Render(ds), "");
      }
    }
  }

  lemma KindByDeclaration(ds: seq<Declaration>, c: char)
    requires NoColon(ds)
    ensures var k := KindOf(Render(ds), c);
            && (k.Unknown? <==> c == ':' || Undeclared(ds, c))
            && (c != ':' ==> (k.NoArg? <==> Declares(ds, c, Never)) && (k.Required? <==> Declares(ds, c, Always)))
  {
    hide IndexOf;
    if c != ':' {
      KindsAreDeclared(ds, c);
      if !Undeclared(ds, c) {
        var a := FirstDeclared(ds, c);
      }
    }
  }

  lemma {:induction false} FirstDeclared(ds: seq<Declaration>, c: char) returns (a: Arity)
    requires !Undeclared(ds, c)
    ensures Declares(ds, c, a)
    decreases |ds|
  {
    if ds[0].c == c {
      a := ds[0].arity;
      assert ds[0] == Declaration(c, a);
    } else {
      a := FirstDeclared(ds[1..], c);
      var k :| 0 <= k < |ds[1..]| && ds[1..][k] == Declaration(c, a) && forall i :: 0 <= i < k ==> ds[1..][i].c != c;
      assert ds[k + 1] == Declaration(c, a) && forall i :: 1 <= i < k + 1 ==> ds[i] == ds[1..][i - 1];
    }
  }

  // A whole vector that begins with one option: the next element is its argument exactly if it always has one.
  lemma FirstElementReads(ds: seq<Declaration>, c: char, a: Arity, args: seq<string>)
    requires NoColon(ds) && c != ':' && c != '-' && Declares(ds, c, a)
    requires |args| > 1 && args[0] == ['-', c]
    ensures Roles(Syntax(Render(ds), None), args)
         == if a.Always? then [OptionPart, OptionPart] + Roles(Syntax(Render(ds), None), args[2..])
            else [OptionPart] + Roles(Syntax(Render(ds), None), args[1..])
  {
    hide KindOf, ClusterTakes, Declares, Render;
    OneCharacterTakes(ds, c, a);
    assert args[0][1..] == [c] && !NonOption(args[0]);
    assert args[0][1] != "--"[1];
  }

  lemma OneCharacterTakes(ds: seq<Declaration>, c: char, a: Arity)
    requires NoColon(ds) && c != ':' && Declares(ds, c, a)
    ensures ClusterTakes(Render(ds), [c]) <==> a.Always?
  {
    hide KindOf, Render;
    KindsAreDeclared(ds, c);
    assert [c][1..] == "" && !ClusterTakes(Render(ds), "");
  }

  // "r:" and the vector -r realm host.
  lemma RealmIsTaken()
    ensures Roles(Syntax("r:", None), ["-r", "realm", "host"]) == [OptionPart, OptionPart, Operand]
  {
    var ds, args := [Declaration('r', Always)], ["-r", "realm", "host"];
    assert Render(ds[1..]) == "" && Render(ds) == "r:";
    assert ds[0] == Declaration('r', Always);
    assert Declares(ds, 'r', Always);
    FirstElementReads(ds, 'r', Always, args);
    assert args[2..] == ["host"] && ["host"][1..] == [];
    assert Roles(Syntax("r:", None), ["host"]) == [Operand] + Roles(Syntax("r:", None), []);
  }

  const NO_ARGUMENT := 0
  const REQUIRED_ARGUMENT := 1
  const OPTIONAL_ARGUMENT := 2

  // The only option of that name.
  predicate Names(longs: seq<LongOption>, k: nat, name: string) {
    k < |longs| && longs[k].name == name && '=' !in name && forall i :: 0 <= i < |longs| && i != k ==> longs[i].name != name
  }

  // A long option by name: required arguments come behind '=' or as the next element, optional ones behind '=' only,
  // and an option without arguments refuses one.
  lemma LongScanned(shorts: string, longs: seq<LongOption>, k: nat, name: string, following: Option<string>)
    requires Names(longs, k, name)
    ensures var o := ScanLong(shorts, longs, name, following);
            if longs[k].hasArg == REQUIRED_ARGUMENT then
              if following.Some? then o.arg == following && o.took == 2 && o.longind == Some(k)
              else o.arg == None && o.took == 1 && o.optopt == Some(longs[k].val) && (o.code == '?' as int || o.code == ':' as int)
            else o.arg == None && o.took == 1 && o.longind == Some(k)
    ensures var o := ScanLong(shorts, longs, name, following);
            o.longind.Some? ==> o.code == if longs[k].flagged then 0 else longs[k].val
  {
    FindsName(longs, k, name);
    hide Lookup;
    IndexBehind(name, "", '=');
    assert name + "" == name && name[..|name|] == name;
  }

  lemma LongScannedWithText(shorts: string, longs: seq<LongOption>, k: nat, name: string, text: string, following: Option<string>)
    requires Names(longs, k, name)
    ensures var o := ScanLong(shorts, longs, name + "=" + text, following);
            && o.took == 1
            && (longs[k].hasArg == NO_ARGUMENT ==> o.code == '?' as int && o.optopt == Some(longs[k].val) && o.arg == None)
            && (longs[k].hasArg != NO_ARGUMENT ==>
                  o.arg == Some(text) && o.longind == Some(k) && o.code == if longs[k].flagged then 0 else longs[k].val)
  {
    FindsName(longs, k, name);
    hide Lookup;
    var next := name + "=" + text;
    IndexBehind(name, "=" + text, '=');
    assert next == name + ("=" + text);
    assert ("=" + text)[0] == '=';
    assert next[..|name|] == name && next[|name| + 1..] == text;
  }

  lemma FindsName(longs: seq<LongOption>, k: nat, name: string)
    requires Names(longs, k, name)
    ensures Lookup(longs, name) == Found(k)
  {
    assert FirstExact(longs, name, 0) <= k;
  }

  // A vector that begins with a long option.
  lemma LongElementReads(shorts: string, longs: seq<LongOption>, k: nat, name: string, args: seq<string>)
    requires Names(longs, k, name) && name != "" && |args| > 1 && args[0] == "--" + name
    ensures var x := Syntax(shorts, Some(longs));
            Roles(x, args) == if longs[k].hasArg == REQUIRED_ARGUMENT then [OptionPart, OptionPart] + Roles(x, args[2..])
                              else [OptionPart] + Roles(x, args[1..])
  {
    FindsName(longs, k, name);
    hide Lookup, ClusterTakes;
    IndexBehind(name, "", '=');
    assert name + "" == name && args[0][2..] == name;
  }

  // A vector that begins with an operand, or with the two dashes that end the options.
  lemma OperandReads(x: Syntax, args: seq<string>)
    requires args != []
    ensures args[0] == "-" || !("-" <= args[0]) ==> Roles(x, args) == [Operand] + Roles(x, args[1..])
    ensures args[0] == "--" ==> Roles(x, args) == [OptionPart] + Repeat(Operand, |args| - 1)
  {
    hide TakesNext;
    OperandsByForm(args[0]);
  }

  // By abbreviation: found if it begins one name only, ambiguous if more, and none of this if it is a name itself.
  lemma Abbreviated(longs: seq<LongOption>, key: string)
    requires forall i :: 0 <= i < |longs| ==> longs[i].name != key
    ensures forall k :: 0 <= k < |longs| ==>
              (Lookup(longs, key) == Found(k)
               <==> key <= longs[k].name && forall i :: 0 <= i < |longs| && key <= longs[i].name ==> i == k)
    ensures Lookup(longs, key) == NotFound <==> forall i :: 0 <= i < |longs| ==> !(key <= longs[i].name)
    ensures Lookup(longs, key) == Ambiguous
       <==> exists i, j :: 0 <= i < j < |longs| && key <= longs[i].name && key <= longs[j].name
  {
    var first := FirstPrefix(longs, key, 0);
    if first < |longs| {
      var second := FirstPrefix(longs, key, first + 1);
      if second < |longs| {
        assert key <= longs[first].name && key <= longs[second].name;
      }
    }
  }

  // A lone dash, like the empty string, is an operand; any other text behind a dash is not.
  lemma OperandsByForm(e: string)
    ensures NonOption(e) <==> !("-" <= e) || e == "-"
  {
  }

  // With '+' in front the run ends at the first operand, with '-' operands are handed back with code 1.
  lemma SignOrders(optstring: string, longs: Option<seq<LongOption>>, s: Scan)
    requires s.next == "" && s.todo != [] && NonOption(s.todo[0]) && optstring != ""
    ensures var c := NextCall(Getopt.OrderingOf(optstring), Syntax(optstring, longs), s);
            && (optstring[0] == '+' ==> c == Call(Scan(s.done, s.skipped + s.todo, "", []), None))
            && (optstring[0] == '-' ==> c.outcome.Some? && c.outcome.value.code == 1 && c.outcome.value.arg == Some(s.todo[0]))
  {
    assert s.skipped + s.todo[..0] == s.skipped && s.todo[0..] == s.todo;
  }
}
