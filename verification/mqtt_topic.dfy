/** Matching a topic name against a subscription filter, level by level. */
module MqttTopic {
  /** The place of the cursor behind the level that `name` starts in: the inner loop of '+'. */
  function BehindLevel(name: string): (r: string)
    ensures |r| <= |name|
  {
    if name == "" || name[0] == '/' then name else BehindLevel(name[1..])
  }

  /** isTopicMatched from two cursors on: what is left of the filter and of the name. */
  predicate Matched(filter: string, name: string)
    decreases |filter|
  {
    if filter == "" || name == "" then filter == "" && name == ""
    else if name[0] == '/' && filter[0] != '/' then false
    else if filter[0] != '+' && filter[0] != '#' && filter[0] != name[0] then false
    else if filter[0] == '+' then Matched(filter[1..], BehindLevel(name))
    else if filter[0] == '#' then Matched(filter[1..], "")
    else Matched(filter[1..], name[1..])
  }

  method IsTopicMatched(topicFilter: string, topicName: string) returns (r: bool)
    ensures r == Matched(topicFilter, topicName)
  {
    var curf: nat, curn: nat := 0, 0;
    while curf < |topicFilter| && curn < |topicName|
      invariant curf <= |topicFilter| && curn <= |topicName|
      invariant Matched(topicFilter, topicName) == Matched(topicFilter[curf..], topicName[curn..])
    {
      ghost var f, n := topicFilter[curf..], topicName[curn..];
      assert f[1..] == topicFilter[curf + 1..] && n[1..] == topicName[curn + 1..];
      if topicName[curn] == '/' && topicFilter[curf] != '/' {
        break;
      }
      if topicFilter[curf] != '+' && topicFilter[curf] != '#' && topicFilter[curf] != topicName[curn] {
        break;
      }
      if topicFilter[curf] == '+' {
        var nextpos: nat := curn + 1;
        while nextpos < |topicName| && topicName[nextpos] != '/'
          invariant nextpos == curn + 1 <= |topicName| && topicName[curn] != '/'
          invariant BehindLevel(n) == BehindLevel(topicName[curn..])
        {
          assert topicName[curn..][1..] == topicName[curn + 1..];
          curn := curn + 1;
          nextpos := curn + 1;
        }
        assert topicName[curn..][1..] == topicName[curn + 1..];
        assert BehindLevel(n) == topicName[curn + 1..];
      } else if topicFilter[curf] == '#' {
        curn := |topicName| - 1;
      }
      curf := curf + 1;
      curn := curn + 1;
      assert Matched(f, n) == Matched(topicFilter[curf..], topicName[curn..]);
    }
    r := curn == |topicName| && curf == |topicFilter|;
  }

  // ----- the meaning: a relation between levels -----

  /** The levels of a topic: what stands between the separators. */
  function Levels(s: string): (r: seq<string>)
    ensures r != []
  {
    if s == "" then [""]
    else if s[0] == '/' then [""] + Levels(s[1..])
    else [[s[0]] + Levels(s[1..])[0]] + Levels(s[1..])[1..]
  }

  /** '+' stands for one level that is not empty, '#' for one or more levels of which the first is
      not empty. */
  predicate LevelsMatch(filter: seq<string>, name: seq<string>) {
    if filter == [] then name == []
    else if filter == ["#"] then name != [] && name[0] != ""
    else if filter[0] == "+" then name != [] && name[0] != "" && LevelsMatch(filter[1..], name[1..])
    else name != [] && name[0] == filter[0] && LevelsMatch(filter[1..], name[1..])
  }

  /** Wildcards fill a level, and '#' the last one. `start` tells whether a level starts here. */
  predicate WellFormed(filter: string, start: bool) {
    if filter == "" then true
    else
      match filter[0]
      case '+' => start && (filter == "+" || filter[1] == '/') && WellFormed(filter[1..], false)
      case '#' => start && filter == "#"
      case '/' => WellFormed(filter[1..], true)
      case _ => WellFormed(filter[1..], false)
  }

  lemma {:induction false} BehindLevelIs(name: string)
    ensures Levels(name)[1..] == if BehindLevel(name) == "" then [] else Levels(BehindLevel(name)[1..])
    ensures BehindLevel(name) != "" ==> BehindLevel(name)[0] == '/'
  {
    if name != "" && name[0] != '/' { BehindLevelIs(name[1..]); }
  }

  /** The first level of a filter that does not start a level has no wildcard. */
  lemma NoWildcardInside(filter: string)
    requires WellFormed(filter, false)
    ensures Levels(filter)[0] != "+" && Levels(filter)[0] != "#"
  {
    if filter != "" && filter[0] != '/' {
      assert Levels(filter)[0][0] == filter[0];
    }
  }

  /** For well-formed filters, the matcher is the relation on levels. */
  lemma {:induction false} MatchedByLevels(filter: string, name: string, start: bool)
    requires WellFormed(filter, start)
    ensures Matched(filter, name) <==> LevelsMatch(Levels(filter), Levels(name))
    decreases |filter|
  {
    if filter == "" {
      if name != "" && name[0] != '/' { assert Levels(name)[0] != ""; }
      if name != "" && name[0] == '/' { assert Levels(name)[1..] == Levels(name[1..]); }
    } else if name == "" {
      if filter[0] == '/' {
        assert Levels(filter)[1..] == Levels(filter[1..]);
        EmptyNameHasNoMore(filter[1..]);
      }
    } else if filter[0] == '/' {
      assert Levels(filter)[1..] == Levels(filter[1..]);
      assert Levels(filter)[0] == "";
      if name[0] == '/' {
        assert Levels(name)[1..] == Levels(name[1..]);
        MatchedByLevels(filter[1..], name[1..], true);
      }
    } else if filter[0] == '+' {
      PlusByLevels(filter, name);
    } else if filter[0] == '#' {
      LevelsOfOne('#');
    } else {
      CharByLevels(filter, name);
    }
  }

  lemma EmptyNameHasNoMore(filter: string)
    ensures !LevelsMatch(Levels(filter), [])
  {
  }

  lemma {:induction false} PlusByLevels(filter: string, name: string)
    requires filter != "" && filter[0] == '+' && WellFormed(filter, true) && name != ""
    ensures Matched(filter, name) <==> LevelsMatch(Levels(filter), Levels(name))
    decreases |filter|, 0
  {
    var rest, behind := filter[1..], BehindLevel(name);
    BehindLevelIs(name);
    assert Levels(filter)[0] == "+" && Levels(filter)[1..] == Levels(rest)[1..];
    if name[0] == '/' {
      assert Levels(name)[0] == "";
    } else {
      assert Levels(name)[0] != "";
      if rest != "" && behind != "" {
        MatchedByLevels(rest[1..], behind[1..], true);
        assert Levels(rest)[1..] == Levels(rest[1..]);
      } else if rest != "" {
        EmptyNameHasNoMore(rest[1..]);
        assert Levels(rest)[1..] == Levels(rest[1..]);
      }
    }
  }

  lemma {:induction false} CharByLevels(filter: string, name: string)
    requires filter != "" && filter[0] !in "+#/" && WellFormed(filter, false) && name != ""
    ensures Matched(filter, name) <==> LevelsMatch(Levels(filter), Levels(name))
    decreases |filter|, 0
  {
    NoWildcardInside(filter);
    NoWildcardInside(filter[1..]);
    var f, n := Levels(filter), Levels(name);
    assert f[0] == [filter[0]] + Levels(filter[1..])[0] && f[1..] == Levels(filter[1..])[1..];
    if name[0] == '/' {
      assert n[0] == "";
    } else {
      assert n[0] == [name[0]] + Levels(name[1..])[0] && n[1..] == Levels(name[1..])[1..];
      assert n[0][0] == name[0] && f[0][0] == filter[0];
      assert n[0][1..] == Levels(name[1..])[0] && f[0][1..] == Levels(filter[1..])[0];
      if name[0] == filter[0] {
        MatchedByLevels(filter[1..], name[1..], false);
      }
    }
  }

  /** Matching by section 4.7.1 of MQTT Version 3.1.1: '+' is any one level and '#' any number of
      levels, which may be none. */
  predicate StandardMatch(filter: seq<string>, name: seq<string>) {
    if filter == ["#"] then true
    else if filter == [] then name == []
    else name != [] && (filter[0] == "+" || filter[0] == name[0]) && StandardMatch(filter[1..], name[1..])
  }

  /** What the matcher accepts, the standard accepts ... */
  lemma {:induction false} WithinStandard(filter: seq<string>, name: seq<string>)
    requires LevelsMatch(filter, name)
    ensures StandardMatch(filter, name)
  {
    if filter != [] && filter != ["#"] { WithinStandard(filter[1..], name[1..]); }
  }

  /** A wildcard of the filter faces an empty level of the name, or '#' faces no level. */
  predicate FacesNothing(filter: seq<string>, name: seq<string>) {
    if filter == [] then false
    else if filter == ["#"] then name == [] || name[0] == ""
    else name != [] && ((filter[0] == "+" && name[0] == "") || FacesNothing(filter[1..], name[1..]))
  }

  /** ... and the other way round exactly when no wildcard has nothing to stand for. */
  lemma {:induction false} StandardUnlessNothing(filter: seq<string>, name: seq<string>)
    ensures LevelsMatch(filter, name) <==> StandardMatch(filter, name) && !FacesNothing(filter, name)
  {
    if filter != [] && filter != ["#"] && name != [] { StandardUnlessNothing(filter[1..], name[1..]); }
  }

  /** The matcher against the standard, for all well-formed filters. */
  lemma MatcherAndStandard(filter: string, name: string)
    requires WellFormed(filter, true)
    ensures Matched(filter, name) <==>
            StandardMatch(Levels(filter), Levels(name)) && !FacesNothing(Levels(filter), Levels(name))
  {
    MatchedByLevels(filter, name, true);
    StandardUnlessNothing(Levels(filter), Levels(name));
  }

  /** The standard's own example of '#' standing for the parent level is not matched. */
  lemma ParentIsNotMatched()
    ensures StandardMatch(Levels("a/#"), Levels("a")) && !Matched("a/#", "a")
  {
    assert "a/#"[1..] == "/#" && "/#"[1..] == "#" && "a"[1..] == "";
    LevelsOfOne('#');
    LevelsOfOne('a');
    var l := Levels("/#");
    assert l == [""] + ["#"] && l[0] == "" && l[1..] == ["#"];
    assert Levels("a/#") == ["a"] + ["#"];
    assert (["a"] + ["#"])[1..] == ["#"] && ["a"][1..] == [];
    MatchedByLevels("a/#", "a", true);
  }

  lemma LevelsOfOne(c: char)
    requires c != '/'
    ensures Levels([c]) == [[c]]
  {
    var l := Levels([c][1..]);
    assert [c][1..] == "" && l == [""];
    assert Levels([c]) == [[c] + l[0]] + l[1..];
    assert [c] + l[0] == [c] && l[1..] == [];
  }

  // ----- filters that are not well formed -----

  predicate NoWildcard(p: string) {
    '+' !in p && '#' !in p
  }

  /** A level of the filter against one of the name: `+` stands for the rest of a level, if there is one,
      and nothing comes behind it. */
  predicate LevelFits(p: string, l: string) {
    || (NoWildcard(p) && p == l)
    || (p != "" && p[|p| - 1] == '+' && NoWildcard(p[..|p| - 1]) && p[..|p| - 1] < l)
  }

  /** The last level of the filter against the rest of the name: `#` stands for all of it, if the first
      of its levels goes on. */
  predicate RestFits(p: string, name: seq<string>) {
    p != "" && p[|p| - 1] == '#' && NoWildcard(p[..|p| - 1]) && name != [] && p[..|p| - 1] < name[0]
  }

  predicate FilterFits(filter: seq<string>, name: seq<string>) {
    if filter == [] then name == []
    else
      || (|filter| == 1 && RestFits(filter[0], name))
      || (name != [] && LevelFits(filter[0], name[0]) && FilterFits(filter[1..], name[1..]))
  }

  lemma FitsNothing(name: seq<string>)
    ensures FilterFits([], name) <==> name == []
  {}

  lemma FitsMore(filter: seq<string>, name: seq<string>)
    requires filter != []
    ensures !FilterFits(filter, [])
    ensures |filter| > 1 && name != [] ==>
              (FilterFits(filter, name) <==> LevelFits(filter[0], name[0]) && FilterFits(filter[1..], name[1..]))
  {}

  /** Both levels without their first character. */
  lemma SameFirst(c: char, p: string, l: string, more: seq<string>)
    requires c != '+' && c != '#'
    ensures LevelFits([c] + p, [c] + l) <==> LevelFits(p, l)
    ensures RestFits([c] + p, [[c] + l] + more) <==> RestFits(p, [l] + more)
  {
    var q := [c] + p;
    assert q[|q| - 1] == if p == "" then c else p[|p| - 1];
    if p != "" {
      assert q[..|q| - 1] == [c] + p[..|p| - 1];
      assert p[..|p| - 1] <= l <==> [c] + p[..|p| - 1] <= [c] + l by { PrefixBehind(c, p[..|p| - 1], l); }
    }
    assert p == l <==> [c] + p == [c] + l by { PrefixBehind(c, p, l); PrefixBehind(c, l, p); }
  }

  lemma PrefixBehind(c: char, p: string, l: string)
    ensures p <= l <==> [c] + p <= [c] + l
  {
    if [c] + p <= [c] + l {
      assert forall i | 0 <= i < |p| :: p[i] == ([c] + p)[i + 1] == ([c] + l)[i + 1] == l[i];
    }
  }

  lemma WildcardFirst(p: string, l: string, name: seq<string>)
    requires p != "" && (p[0] == '+' || p[0] == '#')
    ensures LevelFits(p, l) <==> p == "+" && l != ""
    ensures RestFits(p, name) <==> p == "#" && name != [] && name[0] != ""
  {
    assert !NoWildcard(p);
    if |p| > 1 {
      assert p[..|p| - 1][0] == p[0];
    } else {
      assert p[..|p| - 1] == "";
    }
  }

  lemma OrdinaryFirst(p: string, l: string, name: seq<string>)
    requires p != "" && p[0] != '+' && p[0] != '#'
    ensures LevelFits(p, l) ==> l != "" && l[0] == p[0]
    ensures RestFits(p, name) ==> name[0] != "" && name[0][0] == p[0]
  {
    if |p| > 1 { assert p[..|p| - 1][0] == p[0]; }
  }

  /** What the matcher does with any filter and any name. */
  lemma {:induction false} AnyFilter(filter: string, name: string)
    ensures Matched(filter, name) <==> FilterFits(Levels(filter), Levels(name))
    decreases |filter|
  {
    hide LevelFits, RestFits, FilterFits;
    var f, n := Levels(filter), Levels(name);
    if filter == "" {
      EmptyFilter(name);
    } else if name == "" {
      EmptyName(filter);
    } else if filter[0] == '/' {
      SlashFirst(filter, name);
      if name[0] == '/' { AnyFilter(filter[1..], name[1..]); }
    } else if filter[0] == '+' || filter[0] == '#' {
      WildcardFilter(filter, name);
      MatchedWildcard(filter, name);
      hide Matched;
      if filter[0] == '+' && |filter| > 1 && filter[1] == '/' && name[0] != '/' && BehindLevel(name) != "" {
        AnyFilter(filter[2..], BehindLevel(name)[1..]);
      }
    } else {
      OrdinaryFilter(filter, name);
      if name[0] == filter[0] { AnyFilter(filter[1..], name[1..]); }
    }
  }

  lemma EmptyFilter(name: string)
    ensures FilterFits(Levels(""), Levels(name)) <==> name == ""
  {
    var n := Levels(name);
    assert [""][1..] == [];
    FitsNothing(n[1..]);
    if name != "" && name[0] != '/' { assert n[0] != ""; }
    if name != "" && name[0] == '/' { assert n[1..] == Levels(name[1..]); }
  }

  lemma EmptyName(filter: string)
    requires filter != ""
    ensures !FilterFits(Levels(filter), Levels(""))
  {
    var f := Levels(filter);
    assert [""][1..] == [];
    if filter[0] == '/' {
      assert f[1..] == Levels(filter[1..]);
      FitsMore(f[1..], []);
    } else if filter[0] == '+' || filter[0] == '#' {
      WildcardFirst(f[0], "", [""]);
    } else {
      OrdinaryFirst(f[0], "", [""]);
    }
  }

  lemma SlashFirst(filter: string, name: string)
    requires filter != "" && name != "" && filter[0] == '/'
    ensures FilterFits(Levels(filter), Levels(name)) <==>
            name[0] == '/' && FilterFits(Levels(filter[1..]), Levels(name[1..]))
  {
    var f, n := Levels(filter), Levels(name);
    assert f == [""] + Levels(filter[1..]) && f[1..] == Levels(filter[1..]);
    if name[0] == '/' {
      assert n == [""] + Levels(name[1..]) && n[1..] == Levels(name[1..]);
    } else {
      assert n[0] != "";
    }
    hide FilterFits;
    FitsMore(f, n);
  }

  lemma OrdinaryFilter(filter: string, name: string)
    requires filter != "" && name != "" && filter[0] !in "+#/"
    ensures FilterFits(Levels(filter), Levels(name)) <==>
            name[0] == filter[0] && FilterFits(Levels(filter[1..]), Levels(name[1..]))
  {
    hide LevelFits, RestFits;
    var f, n := Levels(filter), Levels(name);
    var f', n' := Levels(filter[1..]), Levels(name[1..]);
    assert f == [[filter[0]] + f'[0]] + f'[1..] && f[0][0] == filter[0];
    OrdinaryFirst(f[0], n[0], n);
    if name[0] == '/' {
      assert n[0] == "";
    } else {
      assert n == [[name[0]] + n'[0]] + n'[1..] && n[0][0] == name[0];
      if name[0] == filter[0] {
        SameFirst(filter[0], f'[0], n'[0], n'[1..]);
        assert [n'[0]] + n'[1..] == n';
      }
    }
  }

  lemma WildcardFilter(filter: string, name: string)
    requires filter != "" && name != "" && (filter[0] == '+' || filter[0] == '#')
    ensures var behind := BehindLevel(name);
            FilterFits(Levels(filter), Levels(name)) <==>
              && name[0] != '/'
              && (if filter[0] == '#' then filter == "#"
                  else if filter == "+" then behind == ""
                  else filter[1] == '/' && behind != "" && FilterFits(Levels(filter[2..]), Levels(behind[1..])))
  {
    hide LevelFits, RestFits, FilterFits;
    var f, n := Levels(filter), Levels(name);
    BehindLevelIs(name);
    FirstWildcard(filter);
    WildcardFirst(f[0], n[0], n);
    assert name[0] == '/' <==> n[0] == "";
    hide Levels;
    OneOrMore(f, n);
    if |f| > 1 && n[1..] == [] { FitsMore(f[1..], []); }
  }

  lemma OneOrMore(f: seq<string>, n: seq<string>)
    requires f != [] && n != []
    ensures FilterFits(f, n) <==>
            if |f| == 1 then RestFits(f[0], n) || (LevelFits(f[0], n[0]) && n[1..] == [])
            else LevelFits(f[0], n[0]) && FilterFits(f[1..], n[1..])
  {
    hide LevelFits, RestFits;
  }

  lemma FirstWildcard(filter: string)
    requires filter != "" && (filter[0] == '+' || filter[0] == '#')
    ensures var f := Levels(filter);
            && f[0] != "" && f[0][0] == filter[0]
            && (|filter| == 1 ==> f == [filter])
            && (|filter| > 1 && filter[1] == '/' ==> |f| > 1 && f[0] == [filter[0]] && f[1..] == Levels(filter[2..]))
            && (|filter| > 1 && filter[1] != '/' ==> |f[0]| > 1)
  {
    var rest := filter[1..];
    var f := Levels(filter);
    assert f == [[filter[0]] + Levels(rest)[0]] + Levels(rest)[1..];
    if rest == "" {
      assert [filter[0]] + "" == filter;
    } else if rest[0] == '/' {
      assert rest[1..] == filter[2..];
      assert Levels(rest) == [""] + Levels(filter[2..]);
    } else {
      assert Levels(rest)[0] != "";
    }
  }

  lemma MatchedWildcard(filter: string, name: string)
    requires filter != "" && name != "" && (filter[0] == '+' || filter[0] == '#')
    ensures var behind := BehindLevel(name);
            && (behind != "" ==> behind[0] == '/')
            && (Matched(filter, name) <==>
                  && name[0] != '/'
                  && (if filter[0] == '#' then filter == "#"
                      else if filter == "+" then behind == ""
                      else filter[1] == '/' && behind != "" && Matched(filter[2..], behind[1..])))
  {
    var rest, behind := filter[1..], BehindLevel(name);
    BehindLevelIs(name);
    if rest != "" { assert rest[1..] == filter[2..]; }
    if rest != "" && behind != "" {
      assert Matched(rest, behind) <==> rest[0] == '/' && Matched(rest[1..], behind[1..]);
    }
  }
}
