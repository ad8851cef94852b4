/** The checklist rewrite inside `updateChecklist`: the description is split on
    `'\n'`, every line that contains the item's text is replaced by a task-list
    line for that text, and the lines are joined again. */
module Checklist {
  import opened JsValues

  const Newline: char := '\n'

  /** `s.split('\n')`: the maximal newline-free pieces of `s`, in order. */
  function Split(s: string): (lines: seq<string>)
    ensures |lines| >= 1
    ensures forall i :: 0 <= i < |lines| ==> Newline !in lines[i]
    decreases |s|
  {
    if s == [] then [[]]
    else
      var rest := Split(s[1..]);
      if s[0] == Newline then [[]] + rest else [[s[0]] + rest[0]] + rest[1..]
  }

  /** `lines.join('\n')`: the text starts with the first line, and a newline
      follows it when there are more lines. */
  function Join(lines: seq<string>): (s: string)
    requires |lines| >= 1
    ensures lines[0] <= s
    ensures |lines| > 1 ==> |lines[0]| < |s| && s[|lines[0]|] == Newline
    decreases |lines|
  {
    if |lines| == 1 then lines[0] else lines[0] + [Newline] + Join(lines[1..])
  }

  /** Joining the pieces of a split gives back the string. */
  lemma {:induction false} JoinSplit(s: string)
    ensures Join(Split(s)) == s
    decreases |s|
  {
    if s != [] {
      var rest := Split(s[1..]);
      JoinSplit(s[1..]);
      if s[0] == Newline {
        assert Split(s) == [[]] + rest;
      } else if |rest| == 1 {
        assert Split(s) == [[s[0]] + rest[0]];
      } else {
        assert Split(s) == [[s[0]] + rest[0]] + rest[1..];
        assert Join(rest) == rest[0] + [Newline] + Join(rest[1..]);
      }
    }
  }

  /** A newline-free prefix becomes part of the first piece. */
  lemma {:induction false} SplitNewlineFreePrefix(a: string, t: string)
    requires Newline !in a
    ensures Split(a + t) == [a + Split(t)[0]] + Split(t)[1..]
    decreases |a|
  {
    if a != [] {
      assert (a + t)[0] == a[0] && a[0] in a;
      assert (a + t)[1..] == a[1..] + t;
      SplitNewlineFreePrefix(a[1..], t);
      var rest := Split(a[1..] + t);
      assert Split(a + t) == [[a[0]] + rest[0]] + rest[1..];
      assert rest[0] == a[1..] + Split(t)[0] && rest[1..] == Split(t)[1..];
      assert a == [a[0]] + a[1..];
      assert [a[0]] + rest[0] == a + Split(t)[0];
    } else {
      assert a + t == t && a + Split(t)[0] == Split(t)[0];
      assert Split(t) == [Split(t)[0]] + Split(t)[1..];
    }
  }

  /** Splitting a join of newline-free lines gives back the lines. */
  lemma {:induction false} SplitJoin(lines: seq<string>)
    requires |lines| >= 1
    requires forall i :: 0 <= i < |lines| ==> Newline !in lines[i]
    ensures Split(Join(lines)) == lines
    decreases |lines|
  {
    if |lines| == 1 {
      SplitNewlineFreePrefix(lines[0], []);
      assert lines[0] + [] == lines[0];
    } else {
      var tail := Join(lines[1..]);
      SplitJoin(lines[1..]);
      assert Split([Newline] + tail) == [[]] + Split(tail);
      assert lines[0] + [Newline] + tail == lines[0] + ([Newline] + tail);
      SplitNewlineFreePrefix(lines[0], [Newline] + tail);
      assert lines[0] + [] == lines[0];
      assert lines == [lines[0]] + lines[1..];
    }
  }

  /** `s.includes(t)`, computed by scanning the start positions of `s`. Only a
      text no longer than `s` can be included; the empty text is included in
      every string; a text as long as `s` only when it is `s`. */
  predicate Includes(s: string, t: string)
    ensures Includes(s, t) ==> |t| <= |s|
    ensures t == [] ==> Includes(s, t)
    ensures |t| == |s| ==> (Includes(s, t) <==> s == t)
    decreases |s|
  {
    |t| <= |s| && (s[..|t|] == t || Includes(s[1..], t))
  }

  ghost predicate OccursAt(s: string, t: string, i: int) {
    0 <= i && i + |t| <= |s| && s[i..i + |t|] == t
  }

  /** `t` is a substring of `s` somewhere. */
  ghost predicate Occurs(s: string, t: string) {
    exists i :: OccursAt(s, t, i)
  }

  /** The scan finds `t` exactly when it occurs in `s`. */
  lemma {:induction false} IncludesIffOccurs(s: string, t: string)
    ensures Includes(s, t) <==> Occurs(s, t)
    decreases |s|
  {
    if |t| <= |s| {
      if s[..|t|] == t {
        assert OccursAt(s, t, 0);
      } else {
        IncludesIffOccurs(s[1..], t);
        if Occurs(s[1..], t) {
          var i :| OccursAt(s[1..], t, i);
          var window := s[1..][i..i + |t|];
          assert forall k :: 0 <= k < |t| ==> window[k] == s[i + 1 + k];
          assert s[i + 1..i + 1 + |t|] == window;
          assert OccursAt(s, t, i + 1);
        }
        if Occurs(s, t) {
          var i :| OccursAt(s, t, i);
          assert i != 0;
          assert s[1..][i - 1..i - 1 + |t|] == s[i..i + |t|];
          assert OccursAt(s[1..], t, i - 1);
        }
      }
    }
  }

  /** Every string contains its own suffix. */
  lemma {:induction false} IncludesSuffix(p: string, t: string)
    ensures Includes(p + t, t)
    decreases |p|
  {
    if p != [] {
      assert (p + t)[1..] == p[1..] + t;
      IncludesSuffix(p[1..], t);
    } else {
      assert (p + t)[..|t|] == t;
    }
  }

  /** A string contains every character of each string it includes. */
  lemma {:induction false} IncludesKeepsChars(s: string, t: string, c: char)
    requires Includes(s, t) && c in t
    ensures c in s
    decreases |s|
  {
    if s[..|t|] == t {
      assert c in s[..|t|];
    } else {
      IncludesKeepsChars(s[1..], t, c);
    }
  }

  /** The task-list prefix: `- [x] ` when checked, `- [ ] ` otherwise. */
  function Marker(checked: bool): string {
    "- [" + (if checked then "x" else " ") + "] "
  }

  /** The `map` callback on one line. A line that does not contain `text` is
      kept, a rewritten line still contains `text` (so a later rewrite of the
      same item finds it again), and no newline appears that was not in `line`
      or `text`. */
  function RewriteLine(line: string, text: string, checked: bool): (r: string)
    ensures !Includes(line, text) ==> r == line
    ensures Includes(line, text) ==> Includes(r, text)
    ensures Newline !in line && Newline !in text ==> Newline !in r
  {
    IncludesSuffix(Marker(checked), text);
    if Includes(line, text) then Marker(checked) + text else line
  }

  function RewriteLines(lines: seq<string>, text: string, checked: bool): (r: seq<string>)
    ensures |r| == |lines|
    ensures forall i :: 0 <= i < |lines| ==> r[i] == RewriteLine(lines[i], text, checked)
  {
    seq(|lines|, i requires 0 <= i < |lines| => RewriteLine(lines[i], text, checked))
  }

  /** `updateDescription.split('\n').map(...).join('\n')` for a string `text`
      and the truthiness of `checked`. The lines of the result are the rewritten
      lines: the line count is kept, every line containing `text` becomes the
      task-list line and every other line is kept character for character. */
  function Rewrite(description: string, text: string, checked: bool): (r: string)
    ensures Split(r) == RewriteLines(Split(description), text, checked)
    ensures |Split(r)| == |Split(description)|
    ensures forall i :: 0 <= i < |Split(description)| ==>
              Split(r)[i] == (if Includes(Split(description)[i], text) then Marker(checked) + text
                              else Split(description)[i])
  {
    var rewritten := RewriteLines(Split(description), text, checked);
    if Newline in text then
      NewlineTextMatchesNoLine(description, text, checked);
      JoinSplit(description);
      Join(rewritten)
    else
      SplitJoin(rewritten);
      Join(rewritten)
  }

  /** `response.data.description || ''` followed by the `.split` call: a falsy
      description is read as the empty string, a truthy one that is not a string
      has no `split` method. */
  function Description(data: Value): (r: Result<string>)
    ensures Nullish(data) ==> r.Thrown?
    ensures !Nullish(data) && !Truthy(Member(data, "description").value) ==> r == Ok("")
    ensures !Nullish(data) && Member(data, "description").value.Str? ==> r == Ok(Member(data, "description").value.s)
    ensures r.Ok? <==> !Nullish(data) && (Member(data, "description").value.Str? || !Truthy(Member(data, "description").value))
  {
    match Member(data, "description")
    case None => Thrown("Cannot read properties of " + ToString(data) + " (reading 'description')")
    case Some(d) =>
      if !Truthy(d) then Ok("")
      else if d.Str? then Ok(d.s)
      else Thrown("updateDescription.split is not a function")
  }

  /** If the text contains a newline no line can contain it, and the rewrite
      leaves every line as it is. */
  lemma NewlineTextMatchesNoLine(description: string, text: string, checked: bool)
    requires Newline in text
    ensures RewriteLines(Split(description), text, checked) == Split(description)
  {
    var lines := Split(description);
    forall i | 0 <= i < |lines|
      ensures RewriteLine(lines[i], text, checked) == lines[i]
    {
      if Includes(lines[i], text) {
        IncludesKeepsChars(lines[i], text, Newline);
      }
    }
  }

  /** When no line contains `text` the description is unchanged. */
  lemma RewriteWithoutMatch(description: string, text: string, checked: bool)
    requires forall i :: 0 <= i < |Split(description)| ==> !Includes(Split(description)[i], text)
    ensures Rewrite(description, text, checked) == description
  {
    assert RewriteLines(Split(description), text, checked) == Split(description);
    JoinSplit(description);
  }

  /** Two rewrites of the same item: the second `checked` value wins. */
  lemma RewriteLastWriteWins(description: string, text: string, first: bool, second: bool)
    ensures Rewrite(Rewrite(description, text, first), text, second) == Rewrite(description, text, second)
  {
    var lines := Split(description);
    var once := RewriteLines(lines, text, first);
    forall i | 0 <= i < |lines|
      ensures RewriteLine(once[i], text, second) == RewriteLine(lines[i], text, second)
    {
      if Includes(lines[i], text) {
        IncludesSuffix(Marker(first), text);
      }
    }
    assert RewriteLines(once, text, second) == RewriteLines(lines, text, second);
  }

  /** Rewriting an item twice with the same value is rewriting it once. */
  lemma RewriteIdempotent(description: string, text: string, checked: bool)
    ensures Rewrite(Rewrite(description, text, checked), text, checked) == Rewrite(description, text, checked)
  {
    RewriteLastWriteWins(description, text, checked, checked);
  }

  /** Every line contains the empty text, so every line becomes the bare marker. */
  lemma RewriteEmptyText(description: string, checked: bool)
    ensures |Split(Rewrite(description, "", checked))| == |Split(description)|
    ensures forall i :: 0 <= i < |Split(description)| ==> Split(Rewrite(description, "", checked))[i] == Marker(checked)
  {
    forall i | 0 <= i < |Split(description)| ensures Includes(Split(description)[i], "") {
      assert Split(description)[i][..0] == "";
    }
    assert Marker(checked) + "" == Marker(checked);
  }
}
