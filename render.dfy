/** glamourRender: the foreign markdown renderer followed by the loop that
    splits its output on "\n" and writes the pieces back with "\n" between them. */
module Render {

  /** The result of the foreign renderer (NewTermRenderer and Render):
      styled text, or an error. */
  datatype Rendering = Rendered(text: string) | RenderFailed

  /** strings.Split(s, "\n"): a separator-free piece for every run between
      newlines, so one more piece than newlines ("" gives [""]). */
  function Split(s: string): (pieces: seq<string>)
    ensures |pieces| >= 1
    ensures forall k :: 0 <= k < |pieces| ==> '\n' !in pieces[k]
  {
    if s == [] then [""]
    else
      var rest := Split(s[1..]);
      if s[0] == '\n' then [""] + rest
      else [[s[0]] + rest[0]] + rest[1..]
  }

  /** The pieces with "\n" written between neighbours and not after the last. */
  function Join(pieces: seq<string>): string {
    if |pieces| == 0 then ""
    else if |pieces| == 1 then pieces[0]
    else pieces[0] + "\n" + Join(pieces[1..])
  }

  /** Appending a piece writes one separator before it. */
  lemma {:induction false} JoinSnoc(pieces: seq<string>, x: string)
    requires |pieces| >= 1
    ensures Join(pieces + [x]) == Join(pieces) + "\n" + x
  {
    if |pieces| > 1 {
      assert (pieces + [x])[1..] == pieces[1..] + [x];
      JoinSnoc(pieces[1..], x);
    }
  }

  /** Rejoining what Split produced gives back the original text. */
  lemma {:induction false} JoinSplit(s: string)
    ensures Join(Split(s)) == s
  {
    if s != [] {
      var rest := Split(s[1..]);
      JoinSplit(s[1..]);
      if s[0] == '\n' {
        assert Join([""] + rest) == "" + "\n" + Join(rest);
      } else {
        var head := [s[0]] + rest[0];
        if |rest| == 1 {
          assert Split(s) == [head];
        } else {
          assert ([head] + rest[1..])[1..] == rest[1..];
          assert Join(rest) == rest[0] + "\n" + Join(rest[1..]);
        }
      }
      assert s == [s[0]] + s[1..];
    }
  }

  /** Splitting a join of newline-free pieces gives back the pieces. */
  lemma {:induction false} SplitJoin(pieces: seq<string>)
    requires |pieces| >= 1
    requires forall k :: 0 <= k < |pieces| ==> '\n' !in pieces[k]
    ensures Split(Join(pieces)) == pieces
  {
    if |pieces| == 1 {
      SplitPiece(pieces[0], []);
      assert pieces[0] + [] == pieces[0] && Split([]) == [""];
      assert pieces[0] + "" == pieces[0];
    } else {
      var tail := Join(pieces[1..]);
      SplitJoin(pieces[1..]);
      SplitPiece(pieces[0], "\n" + tail);
      assert ("\n" + tail)[1..] == tail;
      assert Join(pieces) == pieces[0] + ("\n" + tail);
      assert Split("\n" + tail) == [""] + pieces[1..];
      assert pieces[0] + "" == pieces[0];
      assert pieces == [pieces[0]] + pieces[1..];
    }
  }

  /** A newline-free prefix glues onto the first piece of what follows it. */
  lemma {:induction false} SplitPiece(p: string, s: string)
    requires '\n' !in p
    ensures Split(p + s) == [p + Split(s)[0]] + Split(s)[1..]
  {
    if p != [] {
      assert (p + s)[1..] == p[1..] + s;
      SplitPiece(p[1..], s);
      assert [p[0]] + (p[1..] + Split(s)[0]) == p + Split(s)[0];
    } else {
      var ss := Split(s);
      assert p + s == s && p + ss[0] == ss[0];
      assert ss == [ss[0]] + ss[1..];
    }
  }

  /** glamourRender at the given wrap width: on success the rejoined lines,
      on a renderer error the error. */
  method GlamourRender(width: int, markdown: string, renderer: (int, string) -> Rendering)
    returns (r: Rendering)
    ensures r == renderer(width, markdown)
  {
    var rendered := renderer(width, markdown);
    if rendered.RenderFailed? {
      return RenderFailed;
    }
    var out := rendered.text;
    var lines := Split(out);
    var content := "";
    var i := 0;
    while i < |lines|
      invariant 0 <= i <= |lines|
      invariant content == if i == 0 then "" else Join(lines[..i]) + (if i < |lines| then "\n" else "")
    {
      if i > 0 {
        JoinSnoc(lines[..i], lines[i]);
        assert lines[..i + 1] == lines[..i] + [lines[i]];
      } else {
        assert lines[..1] == [lines[0]];
      }
      content := content + lines[i];
      if i + 1 < |lines| {
        content := content + "\n";
      }
      i := i + 1;
    }
    assert lines[..i] == lines;
    JoinSplit(out);
    r := Rendered(content);
  }
}
