/**
 * `getRemotes`: reading the output of `git remote --verbose` into a map from
 * remote name to url, keeping only the lines for one method (`push` by
 * default). Running git is not part of the model: its standard output is the
 * input.
 */
module Remotes {
  import opened Common

  /** The characters `\s` matches in a JavaScript regular expression. */
  predicate IsSpace(c: char)
  {
    || c == ' ' || c == '\t' || c == '\n' || c == '\r' || c == '\U{000B}' || c == '\U{000C}'
    || c == '\U{00A0}' || c == '\U{1680}' || ('\U{2000}' <= c <= '\U{200A}')
    || c == '\U{2028}' || c == '\U{2029}' || c == '\U{202F}' || c == '\U{205F}'
    || c == '\U{3000}' || c == '\U{FEFF}'
  }

  predicate NoSpace(s: string)
  {
    forall i :: 0 <= i < |s| ==> !IsSpace(s[i])
  }

  // Splitting the output into lines.

  /** The pieces of `s` between newlines, the first and the last possibly empty. */
  function Lines(s: string): (lines: seq<string>)
    ensures |lines| >= 1
    ensures forall i :: 0 <= i < |lines| ==> '\n' !in lines[i]
  {
    if s == [] then [""]
    else
      var rest := Lines(s[1..]);
      if s[0] == '\n' then [""] + rest else [[s[0]] + rest[0]] + rest[1..]
  }

  /** The lines joined with one newline between each two. */
  function Unlines(lines: seq<string>): string
    requires |lines| >= 1
  {
    if |lines| == 1 then lines[0] else lines[0] + "\n" + Unlines(lines[1..])
  }

  /** Splitting, then joining again, gives back the text. */
  lemma {:induction false} UnlinesLines(s: string)
    ensures Unlines(Lines(s)) == s
  {
    if s != [] {
      var rest := Lines(s[1..]);
      UnlinesLines(s[1..]);
      if s[0] == '\n' {
        assert Lines(s)[1..] == rest;
      } else if |rest| == 1 {
        assert Lines(s) == [[s[0]] + rest[0]];
      } else {
        assert Lines(s)[1..] == rest[1..];
        assert Unlines(rest) == rest[0] + "\n" + Unlines(rest[1..]);
      }
    }
  }

  /** Joining lines without newlines, then splitting, gives back the lines. */
  lemma {:induction false} LinesUnlines(lines: seq<string>)
    requires |lines| >= 1
    requires forall i :: 0 <= i < |lines| ==> '\n' !in lines[i]
    ensures Lines(Unlines(lines)) == lines
    decreases |lines|, |lines[0]|
  {
    if lines[0] == [] {
      if |lines| > 1 {
        assert Unlines(lines) == "\n" + Unlines(lines[1..]);
        LinesUnlines(lines[1..]);
        assert ("\n" + Unlines(lines[1..]))[1..] == Unlines(lines[1..]);
      }
    } else {
      var c := lines[0][0];
      var shorter := [lines[0][1..]] + lines[1..];
      assert forall i :: 0 <= i < |shorter| ==> '\n' !in shorter[i] by {
        forall i | 0 <= i < |shorter|
          ensures '\n' !in shorter[i]
        {
          if i == 0 {
            assert forall x :: x in lines[0][1..] ==> x in lines[0];
          } else {
            assert shorter[i] == lines[i];
          }
        }
      }
      LinesUnlines(shorter);
      assert shorter[0] == lines[0][1..] && shorter[1..] == lines[1..];
      assert Unlines(lines) == [c] + Unlines(shorter) by {
        if |lines| > 1 {
          assert Unlines(shorter) == lines[0][1..] + "\n" + Unlines(lines[1..]);
        }
        assert lines[0] == [c] + lines[0][1..];
      }
      assert ([c] + Unlines(shorter))[1..] == Unlines(shorter);
      assert c != '\n' by {
        assert c in lines[0];
      }
      assert Lines(Unlines(lines)) == [[c] + lines[0][1..]] + lines[1..];
      assert [c] + lines[0][1..] == lines[0];
    }
  }

  // Splitting a line into whitespace-separated fields.

  /** The length of the run of non-space characters at the start of `s`. */
  function WordLength(s: string): (n: nat)
    ensures n <= |s|
    ensures forall i :: 0 <= i < n ==> !IsSpace(s[i])
    ensures n < |s| ==> IsSpace(s[n])
  {
    if s == [] || IsSpace(s[0]) then 0 else 1 + WordLength(s[1..])
  }

  /** The length of the run of space characters at the start of `s`. */
  function SpaceLength(s: string): (n: nat)
    ensures n <= |s|
    ensures forall i :: 0 <= i < n ==> IsSpace(s[i])
    ensures n < |s| ==> !IsSpace(s[n])
  {
    if s == [] || !IsSpace(s[0]) then 0 else 1 + SpaceLength(s[1..])
  }

  /**
   * The pieces of `s` between maximal runs of whitespace. Leading or
   * trailing space gives an empty first or last piece; no piece holds a space
   * and no piece other than the first and the last is empty.
   */
  function Fields(s: string): (fs: seq<string>)
    ensures |fs| >= 1
    ensures forall i :: 0 <= i < |fs| ==> NoSpace(fs[i])
    ensures forall i :: 0 < i < |fs| - 1 ==> fs[i] != ""
    ensures s == [] ==> fs == [""]
    ensures s != [] && !IsSpace(s[0]) ==> fs[0] != ""
    decreases |s|
  {
    var n := WordLength(s);
    if n == |s| then [s]
    else
      var m := SpaceLength(s[n..]);
      [s[..n]] + Fields(s[n..][m..])
  }

  /** The fields joined with one space between each two. */
  function Unfields(fs: seq<string>): string
    requires |fs| >= 1
  {
    if |fs| == 1 then fs[0] else fs[0] + " " + Unfields(fs[1..])
  }

  /** Pieces without space, all but the outer ones non-empty, survive a join with single spaces and a split. */
  lemma {:induction false} FieldsUnfields(fs: seq<string>)
    requires |fs| >= 1
    requires forall i :: 0 <= i < |fs| ==> NoSpace(fs[i])
    requires forall i :: 0 < i < |fs| - 1 ==> fs[i] != ""
    ensures Fields(Unfields(fs)) == fs
    decreases |fs|
  {
    if |fs| == 1 {
      WordAll(fs[0]);
    } else {
      FieldsUnfields(fs[1..]);
      FieldsUnfieldsStep(fs);
    }
  }

  /** The inductive step of `FieldsUnfields`: the first piece, a space, then the rest, which splits back. */
  lemma FieldsUnfieldsStep(fs: seq<string>)
    requires |fs| >= 2 && NoSpace(fs[0]) && NoSpace(fs[1])
    requires fs[1] != "" || |fs| == 2
    requires Fields(Unfields(fs[1..])) == fs[1..]
    ensures Fields(Unfields(fs)) == fs
  {
    var rest := fs[1..];
    UnfieldsLead(rest);
    Separators();
    assert Unfields(fs) == fs[0] + " " + Unfields(rest);
    FieldsJoin(fs[0], " ", Unfields(rest));
    assert fs == [fs[0]] + rest;
  }

  /** The joined text is empty or starts with a non-space when its first piece is non-empty or alone. */
  lemma UnfieldsLead(fs: seq<string>)
    requires |fs| >= 1 && NoSpace(fs[0])
    requires fs[0] != "" || |fs| == 1
    ensures Unfields(fs) == [] || !IsSpace(Unfields(fs)[0])
  {
    UnfieldsStart(fs);
    if fs[0] != "" {
      assert Unfields(fs)[0] == fs[0][0];
    }
  }

  /** A word, a run of whitespace, then text that does not start with whitespace: the word is the first field. */
  lemma FieldsJoin(w: string, sep: string, t: string)
    requires NoSpace(w)
    requires sep != [] && AllSpace(sep)
    requires t == [] || !IsSpace(t[0])
    ensures Fields(w + sep + t) == [w] + Fields(t)
  {
    var s := w + sep + t;
    assert s == w + (sep + t);
    WordPrefix(w, sep + t);
    assert s[..|w|] == w && s[|w|..] == sep + t;
    SpaceRun(sep, t);
    assert (sep + t)[|sep|..] == t;
  }

  /** A string without space is one word. */
  lemma {:induction false} WordAll(s: string)
    requires NoSpace(s)
    ensures WordLength(s) == |s|
    decreases |s|
  {
    if s != [] {
      WordAll(s[1..]);
    }
  }

  /** A word followed by a space ends where the space starts. */
  lemma {:induction false} WordPrefix(w: string, t: string)
    requires NoSpace(w) && t != [] && IsSpace(t[0])
    ensures WordLength(w + t) == |w|
    decreases |w|
  {
    if w == [] {
      assert w + t == t;
    } else {
      assert (w + t)[1..] == w[1..] + t;
      WordPrefix(w[1..], t);
    }
  }

  /** Every character of `s` is whitespace. */
  predicate AllSpace(s: string)
  {
    forall i :: 0 <= i < |s| ==> IsSpace(s[i])
  }

  /** A single space and a single tab are whitespace runs. */
  lemma Separators()
    ensures AllSpace(" ") && AllSpace("\t")
  {
    assert " "[0] == ' ' && "\t"[0] == '\t';
  }

  /** Whitespace before a string that is empty or starts with a non-space is one whole run. */
  lemma {:induction false} SpaceRun(sep: string, t: string)
    requires AllSpace(sep)
    requires t == [] || !IsSpace(t[0])
    ensures SpaceLength(sep + t) == |sep|
    decreases |sep|
  {
    if sep == [] {
      assert sep + t == t;
    } else {
      assert (sep + t)[1..] == sep[1..] + t;
      assert forall i :: 0 <= i < |sep[1..]| ==> sep[1..][i] == sep[i + 1];
      SpaceRun(sep[1..], t);
    }
  }

  /** The joined text starts with the first piece. */
  lemma {:induction false} UnfieldsStart(fs: seq<string>)
    requires |fs| >= 1
    ensures |fs[0]| <= |Unfields(fs)| && Unfields(fs)[..|fs[0]|] == fs[0]
    ensures |fs| == 1 ==> Unfields(fs) == fs[0]
  {
    if |fs| > 1 {
      assert Unfields(fs) == fs[0] + (" " + Unfields(fs[1..]));
    }
  }

  // Removing the parentheses around the method.

  /** Every `(` and `)` removed, everything else kept in order. */
  function StripParens(s: string): (r: string)
    ensures '(' !in r && ')' !in r
    ensures |r| <= |s|
  {
    if s == [] then []
    else (if s[0] == '(' || s[0] == ')' then [] else [s[0]]) + StripParens(s[1..])
  }

  /** Stripping is a no-op on text without parentheses; so stripping twice is stripping once. */
  lemma {:induction false} StripParensKeeps(s: string)
    requires '(' !in s && ')' !in s
    ensures StripParens(s) == s
  {
    if s != [] {
      assert s[0] in s;
      assert forall c :: c in s[1..] ==> c in s;
      StripParensKeeps(s[1..]);
    }
  }

  /** `(push)` and `push` compare equal after stripping. */
  lemma StripParensWrapped(m: string)
    requires '(' !in m && ')' !in m
    ensures StripParens("(" + m + ")") == m
  {
    assert ("(" + m + ")")[1..] == m + ")";
    StripParensAppend(m, ")");
    StripParensKeeps(m);
    assert StripParens(")") == [];
    assert m + [] == m;
  }

  lemma {:induction false} StripParensAppend(a: string, b: string)
    ensures StripParens(a + b) == StripParens(a) + StripParens(b)
  {
    if a == [] {
      assert a + b == b;
    } else {
      assert (a + b)[0] == a[0] && (a + b)[1..] == a[1..] + b;
      StripParensAppend(a[1..], b);
    }
  }

  // The pipeline.

  /** One remote as a line describes it; `mode` is the line's method field, `fetch` or `push`. */
  datatype Remote = Remote(name: string, url: string, mode: string)

  /** A line with fewer than three fields has no method, and reading it throws. */
  datatype ParseError = MissingField(line: string)

  /** A non-empty line: its first three fields, the third without parentheses. */
  function ParseLine(line: string): (r: Result<Remote, ParseError>)
    ensures r.Err? <==> |Fields(line)| < 3
    ensures r.Ok? ==> NoSpace(r.value.name) && NoSpace(r.value.url) && '(' !in r.value.mode && ')' !in r.value.mode
  {
    var fs := Fields(line);
    if |fs| < 3 then Err(MissingField(line)) else Ok(Remote(fs[0], fs[1], StripParens(fs[2])))
  }

  /** The lines that are not empty, in their order; empty lines are dropped. */
  function NonEmpty(lines: seq<string>): (kept: seq<string>)
    ensures |kept| <= |lines|
    ensures forall i :: 0 <= i < |kept| ==> kept[i] != ""
    ensures forall l :: l in kept <==> l in lines && l != ""
  {
    if lines == [] then []
    else (if lines[0] == "" then [] else [lines[0]]) + NonEmpty(lines[1..])
  }

  /** Every non-empty line parsed, in order; the first line that cannot be parsed throws. */
  function ParseAll(lines: seq<string>): (r: Result<seq<Remote>, ParseError>)
    ensures r.Ok? <==> forall i :: 0 <= i < |lines| ==> ParseLine(lines[i]).Ok?
    ensures r.Ok? ==> |r.value| == |lines| && forall i :: 0 <= i < |lines| ==> ParseLine(lines[i]) == Ok(r.value[i])
    ensures r.Err? ==> exists i :: 0 <= i < |lines| && ParseLine(lines[i]) == Err(r.error)
  {
    if lines == [] then Ok([])
    else
      match ParseLine(lines[0])
      case Err(e) => Err(e)
      case Ok(remote) =>
        match ParseAll(lines[1..])
        case Err(e) => Err(e)
        case Ok(rest) => Ok([remote] + rest)
  }

  /** The remotes whose method is `mode`, in their order. */
  function Selected(remotes: seq<Remote>, mode: string): (kept: seq<Remote>)
    ensures |kept| <= |remotes|
    ensures forall i :: 0 <= i < |kept| ==> kept[i].mode == mode
  {
    if remotes == [] then []
    else (if remotes[0].mode == mode then [remotes[0]] else []) + Selected(remotes[1..], mode)
  }

  /** The selection holds exactly the remotes with the method. */
  lemma {:induction false} SelectedMembers(remotes: seq<Remote>, mode: string)
    ensures forall r :: r in Selected(remotes, mode) <==> r in remotes && r.mode == mode
    decreases |remotes|
  {
    if remotes != [] {
      SelectedMembers(remotes[1..], mode);
      assert remotes == [remotes[0]] + remotes[1..];
    }
  }

  /** The map from each name to its url, built in list order, so a later remote of the same name overwrites an earlier one. */
  function Collect(remotes: seq<Remote>): map<string, string>
  {
    if remotes == [] then map[]
    else Collect(remotes[..|remotes| - 1])[remotes[|remotes| - 1].name := remotes[|remotes| - 1].url]
  }

  /** `getRemotes` on the given output of `git remote --verbose`, for the method `mode` (`push` unless given). */
  function GetRemotes(stdout: string, mode: string := "push"): Result<map<string, string>, ParseError>
  {
    match ParseAll(NonEmpty(Lines(stdout)))
    case Err(e) => Err(e)
    case Ok(remotes) => Ok(Collect(Selected(remotes, mode)))
  }

  /** The remotes the lines of `stdout` describe, when every non-empty line has three fields. */
  function Described(stdout: string): Result<seq<Remote>, ParseError>
  {
    ParseAll(NonEmpty(Lines(stdout)))
  }

  // Properties.

  /** The keys of the collected map are exactly the names in the list. */
  lemma {:induction false} CollectKeys(remotes: seq<Remote>)
    ensures Collect(remotes).Keys == set r | r in remotes :: r.name
    decreases |remotes|
  {
    if remotes != [] {
      var init := remotes[..|remotes| - 1];
      CollectKeys(init);
      assert remotes == init + [remotes[|remotes| - 1]];
      assert forall r :: r in remotes <==> r in init || r == remotes[|remotes| - 1];
    }
  }

  /** The last remote of a name decides its url: later lines overwrite earlier ones. */
  lemma {:induction false} CollectLastWins(remotes: seq<Remote>, i: nat)
    requires i < |remotes|
    requires forall j :: i < j < |remotes| ==> remotes[j].name != remotes[i].name
    ensures remotes[i].name in Collect(remotes) && Collect(remotes)[remotes[i].name] == remotes[i].url
    decreases |remotes|
  {
    if i < |remotes| - 1 {
      var init := remotes[..|remotes| - 1];
      assert init[i] == remotes[i];
      CollectLastWins(init, i);
    }
  }

  /** A url in the collected map comes from the last remote of that name. */
  lemma {:induction false} CollectFrom(remotes: seq<Remote>, name: string)
    requires name in Collect(remotes)
    ensures exists i ::
      && 0 <= i < |remotes| && remotes[i].name == name && Collect(remotes)[name] == remotes[i].url
      && forall j :: i < j < |remotes| ==> remotes[j].name != name
    decreases |remotes|
  {
    var last := remotes[|remotes| - 1];
    var init := remotes[..|remotes| - 1];
    if last.name != name {
      CollectFrom(init, name);
      var i :| 0 <= i < |init| && init[i].name == name && Collect(init)[name] == init[i].url
        && forall j :: i < j < |init| ==> init[j].name != name;
      assert remotes[i] == init[i];
      assert forall j :: i < j < |remotes| ==> remotes[j].name != name by {
        forall j | i < j < |remotes|
          ensures remotes[j].name != name
        {
          if j < |init| {
            assert remotes[j] == init[j];
          }
        }
      }
    }
  }

  /** `getRemotes` fails exactly when some non-empty line has fewer than three fields. */
  lemma GetRemotesFails(stdout: string, mode: string)
    ensures GetRemotes(stdout, mode).Err? <==>
      exists line :: line in Lines(stdout) && line != "" && |Fields(line)| < 3
  {
    var kept := NonEmpty(Lines(stdout));
    if ParseAll(kept).Err? {
      var i :| 0 <= i < |kept| && ParseLine(kept[i]).Err?;
      assert kept[i] in kept;
    } else {
      forall line | line in Lines(stdout) && line != ""
        ensures |Fields(line)| >= 3
      {
        assert line in kept;
        var i :| 0 <= i < |kept| && kept[i] == line;
      }
    }
  }

  /**
   * On success, the keys are exactly the names of the described remotes with
   * the requested method, and each name maps to the url of the last such
   * remote.
   */
  lemma GetRemotesResult(stdout: string, mode: string)
    requires GetRemotes(stdout, mode).Ok?
    ensures Described(stdout).Ok?
    ensures var remotes := Described(stdout).value;
      var m := GetRemotes(stdout, mode).value;
      && m.Keys == (set r | r in remotes && r.mode == mode :: r.name)
      && forall name :: name in m ==>
        exists i ::
          && 0 <= i < |remotes| && remotes[i].name == name && remotes[i].mode == mode && m[name] == remotes[i].url
          && forall j :: i < j < |remotes| && remotes[j].mode == mode ==> remotes[j].name != name
  {
    var remotes := Described(stdout).value;
    SelectedKeys(remotes, mode);
    forall name | name in Collect(Selected(remotes, mode))
      ensures exists i ::
        && 0 <= i < |remotes| && remotes[i].name == name && remotes[i].mode == mode
        && Collect(Selected(remotes, mode))[name] == remotes[i].url
        && forall j :: i < j < |remotes| && remotes[j].mode == mode ==> remotes[j].name != name
    {
      SelectedLastWins(remotes, mode, name);
    }
  }

  /** The names collected from the selection are the names of the remotes with the method. */
  lemma SelectedKeys(remotes: seq<Remote>, mode: string)
    ensures Collect(Selected(remotes, mode)).Keys == (set r | r in remotes && r.mode == mode :: r.name)
  {
    CollectKeys(Selected(remotes, mode));
    SelectedMembers(remotes, mode);
  }

  /** A collected url is that of the last remote with the method and that name. */
  lemma SelectedLastWins(remotes: seq<Remote>, mode: string, name: string)
    requires name in Collect(Selected(remotes, mode))
    ensures exists i ::
      && 0 <= i < |remotes| && remotes[i].name == name && remotes[i].mode == mode
      && Collect(Selected(remotes, mode))[name] == remotes[i].url
      && forall j :: i < j < |remotes| && remotes[j].mode == mode ==> remotes[j].name != name
  {
    var sel := Selected(remotes, mode);
    CollectFrom(sel, name);
    var k :| 0 <= k < |sel| && sel[k].name == name && Collect(sel)[name] == sel[k].url
      && forall j :: k < j < |sel| ==> sel[j].name != name;
    var i := SelectedPosition(remotes, mode, k);
    SelectedMembers(remotes[i + 1..], mode);
    forall j | i < j < |remotes| && remotes[j].mode == mode
      ensures remotes[j].name != name
    {
      assert remotes[j] in remotes[i + 1..];
      assert remotes[j] in sel[k + 1..];
    }
  }

  /** The `k`-th selected remote sits at some position `i`, and what is selected after it is what follows `i`. */
  lemma {:induction false} SelectedPosition(remotes: seq<Remote>, mode: string, k: nat) returns (i: nat)
    requires k < |Selected(remotes, mode)|
    ensures i < |remotes| && remotes[i] == Selected(remotes, mode)[k]
    ensures Selected(remotes[i + 1..], mode) == Selected(remotes, mode)[k + 1..]
    decreases |remotes|
  {
    var k' := SelectedTail(remotes, mode, k);
    if k' < 0 {
      return 0;
    }
    var j := SelectedPosition(remotes[1..], mode, k');
    assert remotes[1..][j + 1..] == remotes[j + 2..];
    i := j + 1;
  }

  /**
   * The `k`-th selected remote is the first remote (answered by -1), or the
   * `k'`-th selected from the rest, with the same selection after it.
   */
  lemma SelectedTail(remotes: seq<Remote>, mode: string, k: nat) returns (k': int)
    requires k < |Selected(remotes, mode)|
    ensures remotes != []
    ensures k' < 0 ==> remotes[0] == Selected(remotes, mode)[k] && Selected(remotes[1..], mode) == Selected(remotes, mode)[k + 1..]
    ensures k' >= 0 ==>
      && k' < |Selected(remotes[1..], mode)| && Selected(remotes[1..], mode)[k'] == Selected(remotes, mode)[k]
      && Selected(remotes[1..], mode)[k' + 1..] == Selected(remotes, mode)[k + 1..]
  {
    var sel := Selected(remotes, mode);
    var rest := Selected(remotes[1..], mode);
    if remotes[0].mode == mode {
      assert sel == [remotes[0]] + rest;
      k' := k - 1;
    } else {
      assert sel == rest;
      k' := k;
    }
  }

  /** Selecting from two lists is selecting from each. */
  lemma {:induction false} SelectedAppend(a: seq<Remote>, b: seq<Remote>, mode: string)
    ensures Selected(a + b, mode) == Selected(a, mode) + Selected(b, mode)
    decreases |a|
  {
    if a == [] {
      assert a + b == b;
    } else {
      assert (a + b)[0] == a[0] && (a + b)[1..] == a[1..] + b;
      SelectedAppend(a[1..], b, mode);
    }
  }

  /** Lines for another method do not change the selection, wherever they appear. */
  lemma SelectedIgnores(remotes: seq<Remote>, others: seq<Remote>, more: seq<Remote>, mode: string)
    requires forall r :: r in others ==> r.mode != mode
    ensures Selected(remotes + others + more, mode) == Selected(remotes + more, mode)
  {
    SelectedAppend(remotes + others, more, mode);
    SelectedAppend(remotes, others, mode);
    SelectedAppend(remotes, more, mode);
    SelectedNone(others, mode);
    assert Selected(remotes, mode) + [] == Selected(remotes, mode);
  }

  /** Nothing is selected from remotes that all have another method. */
  lemma SelectedNone(others: seq<Remote>, mode: string)
    requires forall r :: r in others ==> r.mode != mode
    ensures Selected(others, mode) == []
  {
    SelectedMembers(others, mode);
    if Selected(others, mode) != [] {
      assert Selected(others, mode)[0] in Selected(others, mode);
    }
  }

  /** Dropping the empty lines of two stretches of text is dropping them from each, in order. */
  lemma {:induction false} NonEmptyAppend(a: seq<string>, b: seq<string>)
    ensures NonEmpty(a + b) == NonEmpty(a) + NonEmpty(b)
    decreases |a|
  {
    if a == [] {
      assert a + b == b;
    } else {
      assert (a + b)[0] == a[0] && (a + b)[1..] == a[1..] + b;
      NonEmptyAppend(a[1..], b);
    }
  }

  /** Lines that are all non-empty are kept as they are, in the same order. */
  lemma {:induction false} NonEmptyKeeps(lines: seq<string>)
    requires forall i :: 0 <= i < |lines| ==> lines[i] != ""
    ensures NonEmpty(lines) == lines
    decreases |lines|
  {
    if lines != [] {
      NonEmptyKeeps(lines[1..]);
      assert lines == [lines[0]] + lines[1..];
    }
  }

  // Lines as `git remote --verbose` writes them.

  /** A remote `git` can describe: a name and a url without space, a method without space or parentheses. */
  predicate Describable(r: Remote)
  {
    && r.name != "" && NoSpace(r.name)
    && r.url != "" && NoSpace(r.url)
    && NoSpace(r.mode) && '(' !in r.mode && ')' !in r.mode
  }

  /** The line `git` writes for `r`: the name, a tab, the url, a space, then the method in parentheses. */
  function Render(r: Remote): string
  {
    r.name + "\t" + r.url + " " + ("(" + r.mode + ")")
  }

  /** Parsing the line that describes a remote gives back that remote: the name is the first field, the url the second, the method the third. */
  lemma ParseLineRender(r: Remote)
    requires Describable(r)
    ensures Render(r) != "" && '\n' !in Render(r)
    ensures ParseLine(Render(r)) == Ok(r)
  {
    RenderFields(r);
    StripParensWrapped(r.mode);
    RenderOneLine(r);
  }

  /** The fields of the line describing a remote are its name, its url and its wrapped method. */
  lemma RenderFields(r: Remote)
    requires Describable(r)
    ensures Fields(Render(r)) == [r.name, r.url, "(" + r.mode + ")"]
  {
    var wrapped := "(" + r.mode + ")";
    WrappedNoSpace(r.mode);
    var tail := r.url + " " + wrapped;
    TwoFields(r.url, wrapped);
    Separators();
    RenderSplit(r);
    FieldsJoin(r.name, "\t", tail);
  }

  /** The line describing a remote is its name, a tab, then the url and the method. */
  lemma RenderSplit(r: Remote)
    ensures Render(r) == r.name + "\t" + (r.url + " " + ("(" + r.mode + ")"))
  {
  }

  /** Two words separated by one space are two fields, and the text starts with the first. */
  lemma TwoFields(a: string, b: string)
    requires a != [] && NoSpace(a) && b != [] && NoSpace(b)
    ensures !IsSpace((a + " " + b)[0])
    ensures Fields(a + " " + b) == [a, b]
  {
    assert (a + " " + b)[0] == a[0];
    WordAll(b);
    assert Fields(b) == [b];
    Separators();
    FieldsJoin(a, " ", b);
  }

  /** The line describing a remote is not empty and holds no newline. */
  lemma RenderOneLine(r: Remote)
    requires Describable(r)
    ensures Render(r) != "" && '\n' !in Render(r)
  {
    var wrapped := "(" + r.mode + ")";
    WrappedNoSpace(r.mode);
    NoNewline(r.name);
    NoNewline(r.url);
    NoNewline(wrapped);
    assert Render(r)[0] == r.name[0];
    assert Render(r) == r.name + "\t" + r.url + " " + wrapped;
  }

  /** A method without space, wrapped in parentheses, still has no space. */
  lemma WrappedNoSpace(mode: string)
    requires NoSpace(mode)
    ensures NoSpace("(" + mode + ")")
  {
    var w := "(" + mode + ")";
    forall i | 0 <= i < |w|
      ensures !IsSpace(w[i])
    {
      if 0 < i < |w| - 1 {
        assert w[i] == mode[i - 1];
      }
    }
  }

  /** Text without whitespace has no newline. */
  lemma NoNewline(s: string)
    requires NoSpace(s)
    ensures '\n' !in s
  {
    forall i | 0 <= i < |s|
      ensures s[i] != '\n'
    {
      assert !IsSpace(s[i]);
    }
  }

  /** The lines describing each remote, in order. */
  function RenderAll(remotes: seq<Remote>): (lines: seq<string>)
    ensures |lines| == |remotes|
    ensures forall i :: 0 <= i < |remotes| ==> lines[i] == Render(remotes[i])
  {
    seq(|remotes|, i requires 0 <= i < |remotes| => Render(remotes[i]))
  }

  /** What `git remote --verbose` writes for `remotes`: each one's line, ended by a newline. */
  function Output(remotes: seq<Remote>): string
    decreases |remotes|
  {
    if remotes == [] then "" else Render(remotes[0]) + "\n" + Output(remotes[1..])
  }

  /** The output is the remotes' lines joined by newlines, with the empty line after the last newline. */
  lemma {:induction false} OutputUnlines(remotes: seq<Remote>)
    ensures Output(remotes) == Unlines(RenderAll(remotes) + [""])
    decreases |remotes|
  {
    if remotes != [] {
      OutputUnlines(remotes[1..]);
      var lines := RenderAll(remotes) + [""];
      assert lines[0] == Render(remotes[0]);
      assert lines[1..] == RenderAll(remotes[1..]) + [""];
    }
  }

  /**
   * The output describing remotes reads back as exactly those remotes, in
   * order: with a newline after every line, as `git` writes it, and also
   * without the final newline.
   */
  lemma DescribedRendered(remotes: seq<Remote>)
    requires forall i :: 0 <= i < |remotes| ==> Describable(remotes[i])
    ensures Described(Output(remotes)) == Ok(remotes)
    ensures |remotes| >= 1 ==> Described(Unlines(RenderAll(remotes))) == Ok(remotes)
  {
    RenderedParse(remotes);
    OutputLines(remotes);
    if |remotes| >= 1 {
      LinesUnlines(RenderAll(remotes));
    }
  }

  /** The remotes' lines hold no newline, none is empty, and they parse back to the remotes. */
  lemma RenderedParse(remotes: seq<Remote>)
    requires forall i :: 0 <= i < |remotes| ==> Describable(remotes[i])
    ensures forall i :: 0 <= i < |remotes| ==> '\n' !in RenderAll(remotes)[i]
    ensures NonEmpty(RenderAll(remotes)) == RenderAll(remotes)
    ensures ParseAll(RenderAll(remotes)) == Ok(remotes)
  {
    var lines := RenderAll(remotes);
    forall i | 0 <= i < |lines|
      ensures lines[i] != "" && '\n' !in lines[i] && ParseLine(lines[i]) == Ok(remotes[i])
    {
      ParseLineRender(remotes[i]);
    }
    NonEmptyKeeps(lines);
    var parsed := ParseAll(lines);
    assert parsed.Ok?;
    assert parsed.value == remotes;
  }

  /** Splitting the output and dropping its empty lines gives the remotes' lines. */
  lemma OutputLines(remotes: seq<Remote>)
    requires forall i :: 0 <= i < |remotes| ==> '\n' !in RenderAll(remotes)[i]
    ensures NonEmpty(Lines(Output(remotes))) == NonEmpty(RenderAll(remotes))
  {
    OutputUnlines(remotes);
    TerminatedLines(RenderAll(remotes));
  }

  /** Lines each ended by a newline split back into those lines, once the empty ones are dropped. */
  lemma TerminatedLines(lines: seq<string>)
    requires forall i :: 0 <= i < |lines| ==> '\n' !in lines[i]
    ensures NonEmpty(Lines(Unlines(lines + [""]))) == NonEmpty(lines)
  {
    var terminated := lines + [""];
    assert forall i :: 0 <= i < |terminated| ==> '\n' !in terminated[i] by {
      forall i | 0 <= i < |terminated|
        ensures '\n' !in terminated[i]
      {
        if i < |lines| {
          assert terminated[i] == lines[i];
        }
      }
    }
    LinesUnlines(terminated);
    NonEmptyAppend(lines, [""]);
    assert NonEmpty([""]) == [];
    assert NonEmpty(lines) + [] == NonEmpty(lines);
  }

  /**
   * End to end: on the output describing `remotes`, `getRemotes` answers the
   * map from each name with the requested method to the url of the last
   * remote with that name and method, and has exactly those keys.
   */
  lemma GetRemotesRendered(remotes: seq<Remote>, mode: string)
    requires forall i :: 0 <= i < |remotes| ==> Describable(remotes[i])
    ensures GetRemotes(Output(remotes), mode) == Ok(Collect(Selected(remotes, mode)))
    ensures var m := GetRemotes(Output(remotes), mode).value;
      && m.Keys == (set r | r in remotes && r.mode == mode :: r.name)
      && forall name :: name in m ==>
        exists i ::
          && 0 <= i < |remotes| && remotes[i].name == name && remotes[i].mode == mode && m[name] == remotes[i].url
          && forall j :: i < j < |remotes| && remotes[j].mode == mode ==> remotes[j].name != name
  {
    DescribedRendered(remotes);
    GetRemotesResult(Output(remotes), mode);
  }
}
