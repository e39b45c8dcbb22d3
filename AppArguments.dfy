/**
 * Command-line handling of the multi-material remap application
 * (app/portageapp/portageapp_multimat_jali.cc): splitting a `--key=value`
 * argument, and splitting the comma-separated list of material field
 * expressions.  Strings are sequences of characters, where `std::string`
 * counts bytes; the positions agree when the argument's first two
 * characters are ASCII.  `std::string::npos` is the `None` of `FindFrom`.
 */
module AppArguments {
  import opened Sequences

  datatype Outcome<T> = Success(value: T) | Failure(message: string)

  /**
   * std::string::find_first_of for one character, starting at `pos`: the
   * first index at or after `pos` holding `c`.
   */
  function FindFrom(s: string, c: char, pos: nat): (r: Option<nat>)
    ensures r.None? <==> forall i :: pos <= i < |s| ==> s[i] != c
    ensures r.Some? ==> pos <= r.value < |s| && s[r.value] == c
    ensures r.Some? ==> forall i :: pos <= i < r.value ==> s[i] != c
    decreases |s| - pos
  {
    if pos >= |s| then None
    else if s[pos] == c then Some(pos)
    else FindFrom(s, c, pos + 1)
  }

  // ---------------------------------------------------------------------
  // --keyword=value
  // ---------------------------------------------------------------------

  /**
   * The keyword and value of one argument.  The keyword starts at index 2
   * and runs up to the first '=' -- or to the end when there is none or the
   * '=' comes before index 2, since the unsigned length then wraps.  The
   * value follows the '='; without one, npos + 1 wraps to 0 and the value
   * is the whole argument.  An argument shorter than two characters makes
   * `substr(2, ...)` throw std::out_of_range.
   */
  function SplitArgument(arg: string): (r: Outcome<(string, string)>)
    ensures r.Failure? <==> |arg| < 2
    ensures r.Success? && '=' !in arg ==> r.value == (arg[2..], arg)
    ensures r.Success? && '=' in arg ==>
      var e := FirstIndex(arg, '=');
      r.value == (if e >= 2 then arg[2..e] else arg[2..], arg[e + 1..])
  {
    if |arg| < 2 then Failure("out_of_range")
    else
      match FindFrom(arg, '=', 0)
      case None =>
        assert '=' !in arg;
        Success((arg[2..], arg))
      case Some(e) =>
        FindFromIsFirstIndex(arg, '=');
        Success((if e >= 2 then arg[2..e] else arg[2..], arg[e + 1..]))
  }

  /** Searching from the start finds the first occurrence. */
  lemma FindFromIsFirstIndex(s: string, c: char)
    requires c in s
    ensures FindFrom(s, c, 0) == Some(FirstIndex(s, c))
  {
    var f := FirstIndex(s, c);
    AbsentFromPrefix(s, f, c);
  }

  lemma AbsentFromPrefix(s: string, n: nat, c: char)
    requires n <= |s| && c !in s[..n]
    ensures forall i :: 0 <= i < n ==> s[i] != c
  {
    forall i | 0 <= i < n ensures s[i] != c {
      assert s[..n][i] == s[i];
    }
  }

  /** Splitting is the inverse of writing `--keyword=value` with an '='-free keyword. */
  lemma SplitArgumentRoundTrip(prefix: string, keyword: string, value: string)
    requires |prefix| == 2 && '=' !in prefix && '=' !in keyword
    ensures SplitArgument(prefix + keyword + "=" + value) == Success((keyword, value))
  {
    var arg := prefix + keyword + "=" + value;
    var e := |prefix| + |keyword|;
    assert arg[e] == '=';
    assert arg[..e] == prefix + keyword;
    FindFromIsFirstIndex(arg, '=');
    AbsentFromPrefix(arg, FirstIndex(arg, '='), '=');
    assert forall i :: 0 <= i < e ==> arg[i] != '=' by {
      forall i | 0 <= i < e ensures arg[i] != '=' {
        assert arg[..e][i] == arg[i];
      }
    }
    assert arg[2..e] == keyword;
    assert arg[e + 1..] == value;
  }

  /** Without an '=', the value is the whole argument and the keyword all but its first two characters. */
  lemma SplitArgumentWithoutEquals(arg: string)
    requires |arg| >= 2 && '=' !in arg
    ensures SplitArgument(arg) == Success((arg[2..], arg))
  {}

  // ---------------------------------------------------------------------
  // Comma-separated expressions
  // ---------------------------------------------------------------------

  /** The pieces of `s[pos..]` between commas, left to right. */
  function Pieces(s: string, pos: nat): (r: seq<string>)
    requires pos <= |s|
    ensures |r| >= 1
    decreases |s| - pos
  {
    match FindFrom(s, ',', pos)
    case None => [s[pos..]]
    case Some(e) => [s[pos..e]] + Pieces(s, e + 1)
  }

  /** The pieces of the whole list. */
  function Split(s: string): seq<string> {
    Pieces(s, 0)
  }

  /** The pieces joined back with commas. */
  function Join(pieces: seq<string>): string
    requires |pieces| >= 1
  {
    if |pieces| == 1 then pieces[0] else pieces[0] + "," + Join(pieces[1..])
  }

  /** Joining the pieces of `s[pos..]` with ',' gives it back; no piece holds a ','. */
  lemma {:induction false} PiecesJoin(s: string, pos: nat)
    requires pos <= |s|
    ensures Join(Pieces(s, pos)) == s[pos..]
    ensures forall i :: 0 <= i < |Pieces(s, pos)| ==> ',' !in Pieces(s, pos)[i]
    decreases |s| - pos
  {
    var pieces := Pieces(s, pos);
    match FindFrom(s, ',', pos)
    case None =>
      assert pieces == [s[pos..]];
      forall j | 0 <= j < |s[pos..]| ensures s[pos..][j] != ',' {
        assert s[pos..][j] == s[pos + j];
      }
    case Some(e) =>
      PiecesJoin(s, e + 1);
      var rest := Pieces(s, e + 1);
      assert pieces == [s[pos..e]] + rest;
      assert pieces[0] == s[pos..e] && pieces[1..] == rest;
      assert Join(pieces) == s[pos..e] + "," + Join(rest);
      assert s[pos..] == s[pos..e] + "," + s[e + 1..];
      forall j | 0 <= j < |s[pos..e]| ensures s[pos..e][j] != ',' {
        assert s[pos..e][j] == s[pos + j];
      }
      forall i | 0 <= i < |pieces| ensures ',' !in pieces[i] {
        if i > 0 {
          assert pieces[i] == rest[i - 1];
        }
      }
  }

  /** Joining the pieces with ',' gives back the list; no piece holds a ','. */
  lemma SplitJoin(s: string)
    ensures Join(Split(s)) == s
    ensures forall i :: 0 <= i < |Split(s)| ==> ',' !in Split(s)[i]
  {
    PiecesJoin(s, 0);
    assert s[0..] == s;
  }

  /** `s[pos..]` has one piece more than it has commas. */
  lemma {:induction false} PiecesCount(s: string, pos: nat)
    requires pos <= |s|
    ensures |Pieces(s, pos)| == Count(s[pos..], ',') + 1
    decreases |s| - pos
  {
    match FindFrom(s, ',', pos)
    case None =>
      NoCommaFrom(s, pos, |s|);
      assert s[pos..|s|] == s[pos..];
    case Some(e) =>
      PiecesCount(s, e + 1);
      assert |Pieces(s, pos)| == 1 + |Pieces(s, e + 1)|;
      CommaCountStep(s, pos, e);
  }

  /** A stretch that `FindFrom` stepped over holds no comma. */
  lemma NoCommaFrom(s: string, pos: nat, end: nat)
    requires pos <= end <= |s| && forall i :: pos <= i < end ==> s[i] != ','
    ensures Count(s[pos..end], ',') == 0
  {
    forall j | 0 <= j < end - pos ensures s[pos..end][j] != ',' {
      assert s[pos..end][j] == s[pos + j];
    }
    CountMember(s[pos..end], ',');
  }

  /** From `pos`, the commas are the one `FindFrom` found and those after it. */
  lemma CommaCountStep(s: string, pos: nat, e: nat)
    requires pos <= |s| && FindFrom(s, ',', pos) == Some(e)
    ensures Count(s[pos..], ',') == Count(s[e + 1..], ',') + 1
  {
    var first, rest := s[pos..e], s[e + 1..];
    NoCommaFrom(s, pos, e);
    assert s[pos..] == (first + [',']) + rest;
    CountAppend(first + [','], rest, ',');
    CountSnoc(first, ',', ',');
  }

  /** There is one piece more than there are commas. */
  lemma SplitCount(s: string)
    ensures |Split(s)| == Count(s, ',') + 1
  {
    PiecesCount(s, 0);
    assert s[0..] == s;
  }

  /**
   * The `material_fields` loop: cut `exprlist` at every ',' and append the
   * pieces, in order, to the expressions already collected.
   */
  method SplitExpressions(exprlist: string, expressions: seq<string>) returns (result: seq<string>)
    ensures result == expressions + Split(exprlist)
  {
    result := expressions;
    var exprBeg := 0;
    var exprdone := false;
    while !exprdone
      invariant 0 <= exprBeg <= |exprlist|
      invariant !exprdone ==> result + Pieces(exprlist, exprBeg) == expressions + Split(exprlist)
      invariant exprdone ==> result == expressions + Split(exprlist)
      decreases |exprlist| - exprBeg + (if exprdone then 0 else 1)
    {
      var exprEnd := FindFrom(exprlist, ',', exprBeg);
      if exprEnd.None? {
        exprdone := true;
        result := result + [exprlist[exprBeg..]];
      } else {
        var expr := exprlist[exprBeg..exprEnd.value];
        ghost var rest := Pieces(exprlist, exprEnd.value + 1);
        assert Pieces(exprlist, exprBeg) == [expr] + rest;
        assert result + ([expr] + rest) == (result + [expr]) + rest;
        result := result + [expr];
        exprBeg := exprEnd.value + 1;
      }
    }
  }
}
