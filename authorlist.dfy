/**
 * The list comprehension of `read_authors` (search.py:23): every line of
 * the author file is stripped, blank lines are dropped, and the order is
 * kept. Opening and reading the file is not modelled; the lines arrive as
 * `readlines()` gives them.
 */
module AuthorList {
  import opened Text

  /** `[line.strip() for line in lines if line.strip()]`: non-empty, stripped names. */
  function ReadAuthors(lines: seq<string>): (r: seq<string>)
    ensures |r| <= |lines|
    ensures forall k :: 0 <= k < |r| ==> r[k] != [] && IsStripped(r[k])
  {
    if lines == [] then []
    else
      var name := Strip(lines[|lines| - 1]);
      ReadAuthors(lines[..|lines| - 1]) + if name != [] then [name] else []
  }

  function BlankCount(lines: seq<string>): nat
  {
    if lines == [] then 0
    else BlankCount(lines[..|lines| - 1]) + if IsBlank(lines[|lines| - 1]) then 1 else 0
  }

  /** Each line is handled on its own and the order is kept. */
  lemma {:induction false} ReadAuthorsAppend(a: seq<string>, b: seq<string>)
    ensures ReadAuthors(a + b) == ReadAuthors(a) + ReadAuthors(b)
  {
    if b == [] {
      assert a + b == a;
    } else {
      var b', x := b[..|b| - 1], b[|b| - 1];
      var tail := if Strip(x) != [] then [Strip(x)] else [];
      ReadAuthorsAppendLast(a, b);
      ReadAuthorsAppend(a, b');
      AppendAssociates(ReadAuthors(a), ReadAuthors(b'), tail);
    }
  }

  /** The last line of `a + b` is the last line of `b`, read after `a` and the rest of `b`. */
  lemma ReadAuthorsAppendLast(a: seq<string>, b: seq<string>)
    requires b != []
    ensures var x := b[|b| - 1];
      ReadAuthors(a + b) == ReadAuthors(a + b[..|b| - 1]) + if Strip(x) != [] then [Strip(x)] else []
  {
    var b', x := b[..|b| - 1], b[|b| - 1];
    assert b == b' + [x];
    assert a + b == (a + b') + [x];
    ReadAuthorsSnoc(a + b', x);
  }

  lemma AppendAssociates(x: seq<string>, y: seq<string>, z: seq<string>)
    ensures x + y + z == x + (y + z)
  {
  }

  /** One more line adds its stripped name, unless that name is empty. */
  lemma ReadAuthorsSnoc(lines: seq<string>, x: string)
    ensures ReadAuthors(lines + [x]) == ReadAuthors(lines) + if Strip(x) != [] then [Strip(x)] else []
  {
    var s := lines + [x];
    assert s[..|s| - 1] == lines && s[|s| - 1] == x;
  }

  /** Exactly the blank lines are dropped. */
  lemma {:induction false} ReadAuthorsDropsBlanks(lines: seq<string>)
    ensures |ReadAuthors(lines)| + BlankCount(lines) == |lines|
  {
    if lines != [] {
      ReadAuthorsDropsBlanks(lines[..|lines| - 1]);
    }
  }

  /** A list of non-empty stripped names passes through unchanged, so reading is idempotent. */
  lemma {:induction false} ReadAuthorsIdempotent(lines: seq<string>)
    ensures ReadAuthors(ReadAuthors(lines)) == ReadAuthors(lines)
  {
    KeepsNames(ReadAuthors(lines));
  }

  lemma {:induction false} KeepsNames(names: seq<string>)
    requires forall k :: 0 <= k < |names| ==> names[k] != [] && IsStripped(names[k])
    ensures ReadAuthors(names) == names
  {
    if names != [] {
      var pre := names[..|names| - 1];
      var last := names[|names| - 1];
      assert names == pre + [last];
      KeepsNames(pre);
      assert Strip(last) == last;
    }
  }
}
