/**
 * The SVG element accumulator: an append-only list of markup strings, the
 * builders for circles, rectangles, groups and pie segments, and the
 * assembly of the document. Numbers that svg.py only formats into the
 * markup are passed as their text; the trigonometric end points of a pie
 * segment are passed in, already formatted.
 */
module Svg {
  import opened Wrappers
  import opened Text
  import opened Sequences

  /** A point whose coordinates are already formatted as text. */
  datatype Point = Point(x: string, y: string)

  function CircleMarkup(cx: string, cy: string, r: string, fill: string): string
  {
    "    <circle cx=\"" + cx + "\" cy=\"" + cy + "\" r=\"" + r + "\" fill=\"" + fill + "\" />\n"
  }

  function RectangleMarkup(x: string, y: string, width: string, height: string, fill: string): string
  {
    "    <rect x=\"" + x + "\" y=\"" + y + "\" width=\"" + width + "\" height=\"" + height
      + "\" fill=\"" + fill + "\" />\n"
  }

  // ---------------------------------------------------------------------
  // add_group

  /** The attributes of a group: `id="…"` for a truthy id, then `class="…"` for a truthy class. */
  function GroupAttrList(groupId: Option<string>, groupClass: Option<string>): seq<string>
  {
    (if Truthy(groupId) then ["id=\"" + groupId.value + "\""] else [])
    + (if Truthy(groupClass) then ["class=\"" + groupClass.value + "\""] else [])
  }

  /** `" ".join(group_attrs)`. */
  function GroupAttrs(groupId: Option<string>, groupClass: Option<string>): string
  {
    Join(GroupAttrList(groupId, groupClass), ' ')
  }

  /** The four cases of the attribute string. */
  lemma GroupAttrsCases(groupId: Option<string>, groupClass: Option<string>)
    ensures Truthy(groupId) && Truthy(groupClass) ==>
      GroupAttrs(groupId, groupClass) == "id=\"" + groupId.value + "\" class=\"" + groupClass.value + "\""
    ensures Truthy(groupId) && !Truthy(groupClass) ==>
      GroupAttrs(groupId, groupClass) == "id=\"" + groupId.value + "\""
    ensures !Truthy(groupId) && Truthy(groupClass) ==>
      GroupAttrs(groupId, groupClass) == "class=\"" + groupClass.value + "\""
    ensures !Truthy(groupId) && !Truthy(groupClass) ==> GroupAttrs(groupId, groupClass) == ""
  {
    var l := GroupAttrList(groupId, groupClass);
    if |l| == 2 {
      JoinPath2Space(l);
    }
  }

  lemma JoinPath2Space(parts: seq<string>)
    requires |parts| == 2
    ensures Join(parts, ' ') == parts[0] + " " + parts[1]
  {
    assert parts[1..] == [parts[1]];
  }

  /** Every line, prefixed. */
  function IndentLines(lines: seq<string>, prefix: string): (r: seq<string>)
    ensures |r| == |lines|
    ensures forall i :: 0 <= i < |r| ==> r[i] == prefix + lines[i]
  {
    if lines == [] then [] else [prefix + lines[0]] + IndentLines(lines[1..], prefix)
  }

  /** The group string: opening tag, every line of the stripped content one level deeper, closing tag. */
  function GroupMarkup(content: string, groupId: Option<string>, groupClass: Option<string>,
                       indent: string, level: int): string
  {
    var lines := Split(Strip(content), '\n');
    var indented := Join(IndentLines(lines, Repeat(indent, level + 1)), '\n');
    GroupOpen(GroupAttrs(groupId, groupClass), indent, level) + "\n" + indented + "\n"
      + GroupClose(indent, level) + "\n"
  }

  function GroupOpen(attrs: string, indent: string, level: int): string
  {
    Repeat(indent, level) + "<g " + attrs + ">"
  }

  function GroupClose(indent: string, level: int): string
  {
    Repeat(indent, level) + "</g>"
  }

  /**
   * Read line by line, a group is its opening tag, each line of the stripped
   * content behind the deeper indent, its closing tag, and the empty rest
   * after the final newline.
   */
  lemma GroupMarkupLines(content: string, groupId: Option<string>, groupClass: Option<string>,
                         indent: string, level: int)
    requires '\n' !in indent
    requires '\n' !in GroupAttrs(groupId, groupClass)
    ensures Split(GroupMarkup(content, groupId, groupClass, indent, level), '\n')
         == [GroupOpen(GroupAttrs(groupId, groupClass), indent, level)]
            + IndentLines(Split(Strip(content), '\n'), Repeat(indent, level + 1))
            + [GroupClose(indent, level), ""]
  {
    var attrs := GroupAttrs(groupId, groupClass);
    var open := GroupOpen(attrs, indent, level);
    var close := GroupClose(indent, level);
    var lines := IndentLines(Split(Strip(content), '\n'), Repeat(indent, level + 1));
    GroupMarkupJoin(open, lines, close);
    NoNewlineInRepeat(indent, level + 1);
    NoNewlineInIndented(Split(Strip(content), '\n'), Repeat(indent, level + 1));
    NoNewlineInTags(attrs, indent, level);
    SplitJoinGroup(open, lines, close);
  }

  lemma NoNewlineInTags(attrs: string, indent: string, level: int)
    requires '\n' !in indent && '\n' !in attrs
    ensures '\n' !in GroupOpen(attrs, indent, level) && '\n' !in GroupClose(indent, level)
  {
    NoNewlineInRepeat(indent, level);
  }

  lemma SplitJoinGroup(open: string, lines: seq<string>, close: string)
    requires '\n' !in open && '\n' !in close && |lines| >= 1
    requires forall i :: 0 <= i < |lines| ==> '\n' !in lines[i]
    ensures Split(Join([open] + lines + [close, ""], '\n'), '\n') == [open] + lines + [close, ""]
  {
    var parts := [open] + lines + [close, ""];
    NoNewlineInAll([open], lines);
    NoNewlineInAll([open] + lines, [close, ""]);
    SplitJoin(parts, '\n');
  }

  lemma NoNewlineInAll(a: seq<string>, b: seq<string>)
    requires forall i :: 0 <= i < |a| ==> '\n' !in a[i]
    requires forall i :: 0 <= i < |b| ==> '\n' !in b[i]
    ensures forall i :: 0 <= i < |a + b| ==> '\n' !in (a + b)[i]
  {
  }

  lemma NoNewlineConcat(a: string, b: string)
    requires '\n' !in a && '\n' !in b
    ensures '\n' !in a + b
  {
  }

  lemma {:induction false} NoNewlineInRepeat(s: string, n: int)
    requires '\n' !in s
    ensures '\n' !in Repeat(s, n)
  {
  }

  lemma NoNewlineInIndented(lines: seq<string>, prefix: string)
    requires '\n' !in prefix && forall i :: 0 <= i < |lines| ==> '\n' !in lines[i]
    ensures forall i :: 0 <= i < |lines| ==> '\n' !in IndentLines(lines, prefix)[i]
  {
    forall i | 0 <= i < |lines| ensures '\n' !in IndentLines(lines, prefix)[i] {
      NoNewlineConcat(prefix, lines[i]);
    }
  }

  /** The group joined back from its lines. */
  lemma GroupMarkupJoin(open: string, lines: seq<string>, close: string)
    requires |lines| >= 1
    ensures Join([open] + lines + [close, ""], '\n') == open + "\n" + Join(lines, '\n') + "\n" + close + "\n"
  {
    var tail := [close, ""];
    var inner := lines + tail;
    var body := Join(lines, '\n');
    Associative([open], lines, tail);
    ConsJoin(open, inner);
    assert Join([open] + lines + tail, '\n') == open + "\n" + Join(inner, '\n');
    JoinConcat(lines, tail, '\n');
    JoinPath2Newline(tail);
    assert Join(inner, '\n') == body + "\n" + (close + "\n" + "");
    NewlineAssoc(open, body, close);
  }

  lemma NewlineAssoc(a: string, b: string, c: string)
    ensures a + "\n" + (b + "\n" + (c + "\n" + "")) == a + "\n" + b + "\n" + c + "\n"
  {
  }

  lemma ConsJoin(head: string, rest: seq<string>)
    requires |rest| >= 1
    ensures Join([head] + rest, '\n') == head + "\n" + Join(rest, '\n')
  {
    assert ([head] + rest)[1..] == rest;
  }

  lemma JoinPath2Newline(parts: seq<string>)
    requires |parts| == 2
    ensures Join(parts, '\n') == parts[0] + "\n" + parts[1]
  {
    assert parts[1..] == [parts[1]];
  }

  // ---------------------------------------------------------------------
  // add_pie_segment

  /** The large-arc flag: "1" exactly when the segment spans at least 180 degrees. */
  function LargeArcFlag(startAngleDeg: real, endAngleDeg: real): (r: string)
    ensures r == "1" <==> endAngleDeg - startAngleDeg >= 180.0
    ensures r == "0" || r == "1"
  {
    if endAngleDeg - startAngleDeg >= 180.0 then "1" else "0"
  }

  /** The path of a pie segment: move to the centre, line to the start point, arc to the end point, close. */
  function PiePath(cx: string, cy: string, radius: string, startAngleDeg: real, endAngleDeg: real,
                   startPoint: Point, endPoint: Point): string
  {
    MoveTo(cx, cy) + LineTo(startPoint) + ArcTo(radius, LargeArcFlag(startAngleDeg, endAngleDeg), endPoint) + "Z"
  }

  function MoveTo(cx: string, cy: string): string { "M " + cx + " " + cy + " " }

  function LineTo(p: Point): string { "L " + p.x + " " + p.y + " " }

  /** An elliptic arc with equal radii, no rotation, the given large-arc flag and sweep flag 1. */
  function ArcTo(radius: string, largeArcFlag: string, p: Point): string
  {
    "A " + radius + " " + radius + " 0 " + largeArcFlag + " 1 " + p.x + " " + p.y + " "
  }

  predicate IsCommandLetter(c: char) { c == 'M' || c == 'L' || c == 'A' || c == 'Z' }

  /** The path command letters of a string, in order. */
  function Commands(s: string): (r: string)
    ensures forall c :: c in r ==> IsCommandLetter(c)
  {
    if s == [] then "" else (if IsCommandLetter(s[0]) then [s[0]] else "") + Commands(s[1..])
  }

  lemma {:induction false} CommandsConcat(a: string, b: string)
    ensures Commands(a + b) == Commands(a) + Commands(b)
  {
    if a == [] {
      assert a + b == b;
    } else {
      assert (a + b)[0] == a[0];
      assert (a + b)[1..] == a[1..] + b;
      CommandsConcat(a[1..], b);
      var h: string := if IsCommandLetter(a[0]) then [a[0]] else "";
      assert Commands(a + b) == h + Commands(a[1..] + b);
      assert Commands(a) == h + Commands(a[1..]);
    }
  }

  lemma {:induction false} CommandsNone(s: string)
    requires forall i :: 0 <= i < |s| ==> !IsCommandLetter(s[i])
    ensures Commands(s) == ""
  {
    if s != [] { CommandsNone(s[1..]); }
  }

  /** Text without command letters, such as a formatted number. */
  predicate PlainText(s: string) { forall i :: 0 <= i < |s| ==> !IsCommandLetter(s[i]) }

  lemma PlainConcat(a: string, b: string)
    requires PlainText(a) && PlainText(b)
    ensures PlainText(a + b)
  {
    forall i | 0 <= i < |a + b| ensures !IsCommandLetter((a + b)[i]) {
      if i >= |a| { assert (a + b)[i] == b[i - |a|]; }
    }
  }

  /** A command letter followed by plain text contributes just that letter. */
  lemma CommandThenPlain(c: char, rest: string)
    requires IsCommandLetter(c) && PlainText(rest)
    ensures Commands([c] + rest) == [c]
  {
    assert ([c] + rest)[1..] == rest;
    CommandsNone(rest);
  }

  lemma MoveToCommands(cx: string, cy: string)
    requires PlainText(cx) && PlainText(cy)
    ensures Commands(MoveTo(cx, cy)) == "M"
  {
    var rest := " " + cx + " " + cy + " ";
    PlainConcat(" ", cx); PlainConcat(" " + cx, " "); PlainConcat(" " + cx + " ", cy);
    PlainConcat(" " + cx + " " + cy, " ");
    assert MoveTo(cx, cy) == ['M'] + rest;
    CommandThenPlain('M', rest);
  }

  lemma LineToCommands(p: Point)
    requires PlainText(p.x) && PlainText(p.y)
    ensures Commands(LineTo(p)) == "L"
  {
    var rest := " " + p.x + " " + p.y + " ";
    PlainConcat(" ", p.x); PlainConcat(" " + p.x, " "); PlainConcat(" " + p.x + " ", p.y);
    PlainConcat(" " + p.x + " " + p.y, " ");
    assert LineTo(p) == ['L'] + rest;
    CommandThenPlain('L', rest);
  }

  lemma ArcToCommands(radius: string, flag: string, p: Point)
    requires PlainText(radius) && PlainText(flag) && PlainText(p.x) && PlainText(p.y)
    ensures Commands(ArcTo(radius, flag, p)) == "A"
  {
    var r1 := " " + radius + " " + radius + " 0 ";
    PlainConcat(" ", radius); PlainConcat(" " + radius, " "); PlainConcat(" " + radius + " ", radius);
    PlainConcat(" " + radius + " " + radius, " 0 ");
    var r2 := r1 + flag + " 1 ";
    PlainConcat(r1, flag); PlainConcat(r1 + flag, " 1 ");
    var r3 := r2 + p.x + " " + p.y + " ";
    PlainConcat(r2, p.x); PlainConcat(r2 + p.x, " ");
    PlainConcat(r2 + p.x + " ", p.y); PlainConcat(r2 + p.x + " " + p.y, " ");
    assert ArcTo(radius, flag, p) == ['A'] + r3;
    CommandThenPlain('A', r3);
  }

  /**
   * The pie path starts at the centre, holds exactly one line and one arc
   * command and ends with the close command.
   */
  lemma PiePathShape(cx: string, cy: string, radius: string, startAngleDeg: real, endAngleDeg: real,
                     startPoint: Point, endPoint: Point)
    requires PlainText(cx) && PlainText(cy) && PlainText(radius)
    requires PlainText(startPoint.x) && PlainText(startPoint.y)
    requires PlainText(endPoint.x) && PlainText(endPoint.y)
    ensures var p := PiePath(cx, cy, radius, startAngleDeg, endAngleDeg, startPoint, endPoint);
      && p[..|MoveTo(cx, cy)|] == "M " + cx + " " + cy + " "
      && p[|p| - 1] == 'Z'
      && Commands(p) == "MLAZ"
  {
    var flag := LargeArcFlag(startAngleDeg, endAngleDeg);
    var m := MoveTo(cx, cy);
    var l := LineTo(startPoint);
    var a := ArcTo(radius, flag, endPoint);
    MoveToCommands(cx, cy);
    LineToCommands(startPoint);
    assert PlainText(flag);
    ArcToCommands(radius, flag, endPoint);
    CommandsConcat(m + l + a, "Z");
    CommandsConcat(m + l, a);
    CommandsConcat(m, l);
    assert Commands("Z") == "Z" by { CommandThenPlain('Z', ""); assert "Z" == ['Z'] + ""; }
    var p := m + l + a + "Z";
    assert p[..|m|] == m;
  }

  /** The group content of a pie segment: path and title, wrapped in a link exactly when the url is truthy. */
  function PieContent(path: string, color: string, description: string, url: Option<string>): (r: string)
    ensures Truthy(url) <==> |r| >= 3 && r[..3] == "<a "
    ensures Truthy(url) ==> |r| >= 5 && r[|r| - 5..] == "</a>\n"
  {
    var pathElement := "<path d=\"" + path + "\" fill=\"" + color + "\" />\n";
    var titleElement := "<title>" + description + "</title>";
    var content := pathElement + titleElement;
    assert content[..3] == "<pa";
    if Truthy(url) then
      var r := "<a xlink:href=\"" + url.value + "\" target=\"_blank\">\n" + content + "</a>\n";
      assert r[..3] == "<a " && r[|r| - 5..] == "</a>\n";
      r
    else content
  }

  // ---------------------------------------------------------------------
  // get_svg_markup

  function Header(width: int, height: int): string
  {
    "<svg xmlns=\"http://www.w3.org/2000/svg\" xmlns:xlink=\"http://www.w3.org/1999/xlink\" width=\""
      + IntStr(width) + "\" height=\"" + IntStr(height) + "\">\n"
  }

  /** `"".join(elements)`. */
  function Concat(elements: seq<string>): string
  {
    if elements == [] then "" else elements[0] + Concat(elements[1..])
  }

  lemma {:induction false} ConcatAppend(a: seq<string>, b: seq<string>)
    ensures Concat(a + b) == Concat(a) + Concat(b)
  {
    if a == [] {
      assert a + b == b;
    } else {
      assert (a + b)[1..] == a[1..] + b;
      ConcatAppend(a[1..], b);
    }
  }

  /** Each element sits in the body between the elements added before it and those added after it. */
  lemma ConcatInOrder(elements: seq<string>, i: nat)
    requires i < |elements|
    ensures Concat(elements) == Concat(elements[..i]) + elements[i] + Concat(elements[i + 1..])
  {
    assert elements == elements[..i] + elements[i..];
    ConcatAppend(elements[..i], elements[i..]);
    assert elements[i..][1..] == elements[i + 1..];
  }

  /** The whole document: header with width and height, every element in insertion order, footer. */
  function Markup(width: int, height: int, elements: seq<string>): (r: string)
    ensures |r| >= |Header(width, height)| + 6
    ensures r[..|Header(width, height)|] == Header(width, height)
    ensures r[|r| - 6..] == "</svg>"
    ensures r[|Header(width, height)|..|r| - 6] == Concat(elements)
  {
    var h := Header(width, height);
    var r := h + Concat(elements) + "</svg>";
    assert r[..|h|] == h;
    assert r[|h|..|r| - 6] == Concat(elements);
    r
  }

  class SVG {
    const width: int
    const height: int
    const indent: string
    var elements: seq<string>

    constructor(width: int, height: int, indent: string)
      ensures this.width == width && this.height == height && this.indent == indent
      ensures elements == []
    {
      this.width := width;
      this.height := height;
      this.indent := indent;
      elements := [];
    }

    /** _add_element: one new string, `indent * level + element + "\n"`, after all earlier ones. */
    method AddElement(element: string, level: int)
      modifies this
      ensures elements == old(elements) + [Repeat(indent, level) + element + "\n"]
      ensures Concat(elements) == Concat(old(elements)) + Repeat(indent, level) + element + "\n"
    {
      var added := Repeat(indent, level) + element + "\n";
      ConcatAppend(elements, [added]);
      assert Concat([added]) == added + Concat([]);
      elements := elements + [added];
    }

    method AddCircle(cx: string, cy: string, r: string, fill: string)
      modifies this
      ensures elements == old(elements) + [indent + CircleMarkup(cx, cy, r, fill) + "\n"]
    {
      assert Repeat(indent, 1) == indent + Repeat(indent, 0) == indent;
      AddElement(CircleMarkup(cx, cy, r, fill), 1);
    }

    method AddRectangle(x: string, y: string, width: string, height: string, fill: string)
      modifies this
      ensures elements == old(elements) + [indent + RectangleMarkup(x, y, width, height, fill) + "\n"]
    {
      assert Repeat(indent, 1) == indent + Repeat(indent, 0) == indent;
      AddElement(RectangleMarkup(x, y, width, height, fill), 1);
    }

    /** add_group: the group string is added at level 0, so it gains no indent beyond its own. */
    method AddGroup(content: string, groupId: Option<string>, groupClass: Option<string>, level: int)
      modifies this
      ensures elements == old(elements) + [GroupMarkup(content, groupId, groupClass, indent, level) + "\n"]
    {
      var g := GroupMarkup(content, groupId, groupClass, indent, level);
      EmptyPrefix(Repeat(indent, 0), g);
      AddElement(g, 0);
    }

    method AddPieSegment(cx: string, cy: string, radius: string, startAngleDeg: real, endAngleDeg: real,
                         startPoint: Point, endPoint: Point, color: string, aspectDescription: string,
                         aspectId: Option<string>, aspectClass: Option<string>, aspectUrl: Option<string>)
      modifies this
      ensures elements == old(elements) + [GroupMarkup(
        PieContent(PiePath(cx, cy, radius, startAngleDeg, endAngleDeg, startPoint, endPoint),
                   color, aspectDescription, aspectUrl),
        aspectId, aspectClass, indent, 2) + "\n"]
    {
      var path := PiePath(cx, cy, radius, startAngleDeg, endAngleDeg, startPoint, endPoint);
      var content := PieContent(path, color, aspectDescription, aspectUrl);
      AddGroup(content, aspectId, aspectClass, 2);
    }

    function GetSvgMarkup(): string
      reads this
    {
      Markup(width, height, elements)
    }
  }
}
