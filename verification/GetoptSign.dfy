/**
 The leading `-` or `+` of an option string: _getopt_initialize takes it off for the first call, the calls after
 that see it again. When that makes a difference, and when not.
 */
module GetoptSign {
  import opened Bytes
  import opened GetoptSpec
  import opened Getopt

  predicate Signed(optstring: string) { optstring != "" && (optstring[0] == '-' || optstring[0] == '+') }

  predicate LeadingColon(shorts: string) { shorts != "" && shorts[0] == ':' }

  lemma SignTakenOff(optstring: string)
    requires Signed(optstring)
    ensures Stripped(optstring) == optstring[1..]
  {
  }

  // Behind the sign nothing changes for other characters.
  lemma KindBehindSign(optstring: string, c: char)
    requires Signed(optstring) && c != optstring[0]
    ensures KindOf(optstring, c) == KindOf(optstring[1..], c)
  {
    var rest := optstring[1..];
    assert IndexOf(optstring, c) == 1 + IndexOf(rest, c);
    assert forall k :: 0 <= k < |rest| ==> rest[k] == optstring[k + 1];
  }

  // The sign itself has become an option.
  lemma SignIsOption(optstring: string)
    requires Signed(optstring)
    ensures var k := KindOf(optstring, optstring[0]);
            && !k.Unknown? && (LeadingColon(optstring[1..]) <==> k.Required? || k.Optional?)
    ensures Missing(optstring) == QUESTION
    ensures Missing(optstring[1..]) == if LeadingColon(optstring[1..]) then COLON else QUESTION
  {
    assert IndexOf(optstring, optstring[0]) == 0;
    assert |optstring| > 1 ==> optstring[1] == optstring[1..][0];
  }

  // For an option character: the sign itself is taken for an option, unless the string behind it makes it one of the
  // same effect; and an argument that is missing is not reported as a colon any more.
  predicate ShortShows(optstring: string, next: string, following: Option<string>)
    requires Signed(optstring) && next != ""
  {
    var rest, c, last := optstring[1..], next[0], |next| == 1;
    if c != optstring[0] then LeadingColon(rest) && KindOf(rest, c).Required? && last && following.None?
    else
      var now, first := KindOf(optstring, c), KindOf(rest, c);
      !(|| (now == first && !(now.Required? && last && following.None?))
        || (last && ((now.NoArg? && first.Optional?) || (now.Optional? && first.NoArg?)))
        || (!last && ((now.Required? && first.Optional?) || (now.Optional? && first.Required?)))
        || (now.Required? && first.Unknown? && last && following.None?))
  }

  lemma ShortShowsExactly(optstring: string, next: string, following: Option<string>)
    requires Signed(optstring) && next != ""
    ensures ScanShort(optstring, next, following) != ScanShort(optstring[1..], next, following)
       <==> ShortShows(optstring, next, following)
  {
    hide KindOf, Missing, LeadingColon;
    SignIsOption(optstring);
    if next[0] != optstring[0] {
      KindBehindSign(optstring, next[0]);
    }
    assert |next| == 1 <==> next[1..] == "";
  }

  // For a long option only the report of a missing argument differs.
  predicate LongShows(optstring: string, longs: seq<LongOption>, next: string, following: Option<string>)
    requires Signed(optstring)
  {
    var m := Lookup(longs, next);
    LeadingColon(optstring[1..]) && following.None? && IndexOf(next, '=') == |next| && m.Found? && longs[m.index].hasArg == 1
  }

  lemma LongShowsExactly(optstring: string, longs: seq<LongOption>, next: string, following: Option<string>)
    requires Signed(optstring)
    ensures ScanLong(optstring, longs, next, following) != ScanLong(optstring[1..], longs, next, following)
       <==> LongShows(optstring, longs, next, following)
  {
    hide Lookup, Missing, KindOf, LeadingColon;
    SignIsOption(optstring);
    assert next[..|next|] == next;
  }

  // The element whose option a call decodes, if it comes to one.
  function Decoded(ordering: Ordering, longs: Option<seq<LongOption>>, s: Scan): Option<Scan>
    requires ScanOk(Syntax("", longs), s)
  {
    if s.next != "" then Some(s)
    else
      var n := if ordering.Permute? then Operands(s.todo) else 0;
      var skipped, todo := s.skipped + s.todo[..n], s.todo[n..];
      if todo == [] || todo[0] == "--" || NonOption(todo[0]) then None
      else Some(Scan(s.done, skipped, Start(Syntax("", longs), todo[0]), todo))
  }

  predicate Shows(optstring: string, longs: Option<seq<LongOption>>, t: Scan)
    requires Signed(optstring) && t.todo != []
  {
    if IsLong(Syntax(optstring, longs), t.todo[0]) then LongShows(optstring, longs.value, t.next, Following(t.todo))
    else t.next != "" && ShortShows(optstring, t.next, Following(t.todo))
  }

  lemma PassDiffers(x: Syntax, y: Syntax, t: Scan)
    requires x.longs == y.longs && t.todo != [] && (t.next != "" || IsLong(x, t.todo[0]))
    ensures PassElement(x, t) != PassElement(y, t)
       <==> ScanElement(x, t.todo[0], t.next, Following(t.todo)) != ScanElement(y, t.todo[0], t.next, Following(t.todo))
  {
    hide ScanElement;
  }

  lemma NextCallDecodes(ordering: Ordering, x: Syntax, s: Scan)
    requires ScanOk(x, s)
    ensures var d := Decoded(ordering, x.longs, s);
            d.Some? ==> d.value.todo != [] && (d.value.next != "" || IsLong(x, d.value.todo[0]))
                        && NextCall(ordering, x, s) == PassElement(x, d.value)
  {
    hide PassElement, Operands;
  }

  lemma NextCallIgnores(ordering: Ordering, x: Syntax, y: Syntax, s: Scan)
    requires ScanOk(x, s) && x.longs == y.longs && Decoded(ordering, x.longs, s).None?
    ensures ScanOk(y, s) && NextCall(ordering, x, s) == NextCall(ordering, y, s)
  {
    hide PassElement, Operands;
  }

  // Main result: a call after the first differs from the same call on the option string without its sign exactly when
  // the sign shows in the option it decodes.
  lemma LaterCallDiffersExactly(ordering: Ordering, optstring: string, longs: Option<seq<LongOption>>, s: Scan)
    requires Signed(optstring) && ScanOk(Syntax(optstring, longs), s)
    ensures ScanOk(Syntax(Stripped(optstring), longs), s)
    ensures NextCall(ordering, Syntax(optstring, longs), s) != NextCall(ordering, Syntax(Stripped(optstring), longs), s)
       <==> var d := Decoded(ordering, longs, s); d.Some? && d.value.todo != [] && Shows(optstring, longs, d.value)
  {
    hide ScanShort, ScanLong, NextCall, PassElement, Decoded, ShortShows, LongShows, Stripped;
    SignTakenOff(optstring);
    var x, y := Syntax(optstring, longs), Syntax(optstring[1..], longs);
    var d := Decoded(ordering, longs, s);
    if d.None? {
      NextCallIgnores(ordering, x, y, s);
    } else {
      var t := d.value;
      NextCallDecodes(ordering, x, s);
      NextCallDecodes(ordering, y, s);
      PassDiffers(x, y, t);
      if IsLong(x, t.todo[0]) {
        LongShowsExactly(optstring, longs.value, t.next, Following(t.todo));
      } else {
        ShortShowsExactly(optstring, t.next, Following(t.todo));
      }
    }
  }

  // With "+a", the element "-+" is refused by the first call and accepted by a later one.
  lemma SignAccepted()
    ensures ScanShort("+a", "+", None).code == '+' as int
    ensures ScanShort(Stripped("+a"), "+", None).code == QUESTION
  {
    assert Stripped("+a") == "a";
    assert IndexOf("+a", '+') == 0;
    assert "a"[1..] == "" && IndexOf("a", '+') == 1;
  }
}
