/** What a list item looks like: the lines that are items, and what is read from them. */
module MarkdownItems {
  import opened Prelude
  import opened Markdown
  import opened MarkdownLines
  import opened Text

  /** A line taken apart. */
  datatype Shape = Shape(lead: string, marker: string, gap: string, content: string)

  predicate Spaces(s: string) {
    forall i | 0 <= i < |s| :: IsSpace(s[i])
  }

  predicate StartsPlain(s: string) {
    s == "" || !IsSpace(s[0])
  }

  predicate IsBullet(marker: string) {
    marker == "-" || marker == "*" || marker == "+"
  }

  predicate IsNumber(marker: string) {
    && |marker| > 1 && (forall i | 0 <= i < |marker| - 1 :: IsDigit(marker[i]))
    && (marker[|marker| - 1] == '.' || marker[|marker| - 1] == ')')
  }

  /** Indentation, a bullet or a number, white space, and the rest of the line. */
  predicate IsItem(line: string, shape: Shape) {
    && line == shape.lead + (shape.marker + (shape.gap + shape.content))
    && Spaces(shape.lead) && (IsBullet(shape.marker) || IsNumber(shape.marker))
    && shape.gap != "" && Spaces(shape.gap)
    && StartsPlain(shape.content) && OneLine(shape.content)
  }

  /** A box, open or checked, with white space after it. */
  predicate HasBox(content: string, mark: char, gap: string, text: string) {
    && content == ("[" + [mark] + "]") + (gap + text)
    && (mark == ' ' || mark == 'x' || mark == 'X')
    && gap != "" && Spaces(gap) && StartsPlain(text)
  }

  lemma LeadingIs(s: string, t: string)
    requires Spaces(s) && StartsPlain(t)
    ensures Leading(s + t) == |s|
  {
    LeadingOfSpaces(s, t);
  }

  lemma DigitsAre(s: string, t: string)
    requires (forall i | 0 <= i < |s| :: IsDigit(s[i])) && (t == "" || !IsDigit(t[0]))
    ensures Digits(s + t) == |s|
  {
    var n := Digits(s + t);
    assert forall i | 0 <= i < |s| :: (s + t)[i] == s[i];
    assert t != "" ==> (s + t)[|s|] == t[0];
  }

  lemma MarkerIs(marker: string, after: string)
    requires IsBullet(marker) || IsNumber(marker)
    ensures Marker(marker + after) == |marker|
    ensures IsNumber(marker) ==> Number(marker + after) == Some(ParseInt(marker[..|marker| - 1]))
    ensures IsBullet(marker) ==> Number(marker + after) == None
    ensures !IsSpace(marker[0])
  {
    var s, n := marker + after, |marker| - 1;
    assert s[0] == marker[0];
    if IsNumber(marker) {
      assert IsDigit(marker[0]);
      assert s == marker[..n] + ([marker[n]] + after);
      DigitsAre(marker[..n], [marker[n]] + after);
      assert s[n] == marker[n] && s[..n] == marker[..n];
    }
  }

  /** A line that looks like an item is one, and this is what is read from it. */
  lemma ItemRead(line: string, shape: Shape)
    requires IsItem(line, shape)
    ensures ParseListItem(line) ==
              ItemText(if IsNumber(shape.marker) then Some(ParseInt(shape.marker[..|shape.marker| - 1])) else None,
                       shape.content, |Expand(shape.lead)|)
    ensures ParseListItem(line).Some?
  {
    var rest := shape.marker + (shape.gap + shape.content);
    MarkerIs(shape.marker, shape.gap + shape.content);
    LeadingIs(shape.lead, rest);
    assert line[..|shape.lead|] == shape.lead && line[|shape.lead|..] == rest;
    assert rest[|shape.marker|..] == shape.gap + shape.content;
    LeadingIs(shape.gap, shape.content);
    assert (shape.gap + shape.content)[|shape.gap|..] == shape.content;
    hide Marker, Number, Leading, OneLine, TaskBox, IsNumber, IsBullet;
  }

  /** Only such lines are items. */
  lemma ItemShaped(line: string) returns (shape: Shape)
    requires ParseListItem(line).Some?
    ensures IsItem(line, shape)
  {
    hide Marker, IsNumber, IsBullet, OneLine, ParseListItem, IsSpace, Leading;
    var lead, rest, m, after, gap := ItemParts(line);
    shape := Shape(line[..lead], rest[..m], after[..gap], after[gap..]);
    MarkerShaped(rest);
    SpacesFirst(line);
    SpacesFirst(after);
    hide Spaces, StartsPlain;
    assert after == after[..gap] + after[gap..];
    assert rest == rest[..m] + after;
    assert line == line[..lead] + rest;
  }

  lemma SpacesFirst(s: string)
    ensures Spaces(s[..Leading(s)]) && StartsPlain(s[Leading(s)..])
  {
    hide IsSpace;
  }

  lemma ItemParts(line: string) returns (lead: nat, rest: string, m: nat, after: string, gap: nat)
    requires ParseListItem(line).Some?
    ensures lead == Leading(line) && rest == line[lead..] && 0 < m <= |rest| && m == Marker(rest)
    ensures after == rest[m..] && gap == Leading(after) && gap > 0 && OneLine(after[gap..])
  {
    hide Marker, Leading, OneLine, TaskBox, Expand, Number;
    lead := Leading(line);
    rest := line[lead..];
    m := Marker(rest);
    after := rest[m..];
    gap := Leading(after);
  }

  lemma MarkerShaped(rest: string)
    requires Marker(rest) > 0
    ensures var m := Marker(rest); IsBullet(rest[..m]) || IsNumber(rest[..m])
  {
  }

  /** Exactly the lines of this shape are items. */
  lemma ItemsExactly(line: string)
    ensures ParseListItem(line).Some? <==> exists shape :: IsItem(line, shape)
  {
    if ParseListItem(line).Some? {
      var shape := ItemShaped(line);
    }
    forall shape | IsItem(line, shape) ensures ParseListItem(line).Some? {
      ItemRead(line, shape);
    }
  }

  lemma BoxIs(content: string, mark: char, gap: string, text: string)
    requires HasBox(content, mark, gap, text)
    ensures TaskBox(content) == 3 + |gap| && content[1] == mark && content[3 + |gap|..] == text
  {
    LeadingIs(gap, text);
    var box := "[" + [mark] + "]";
    assert content[0] == box[0] && content[1] == box[1] && content[2] == box[2];
    assert content[3..] == gap + text && content[3 + |gap|..] == text;
    hide Leading;
  }

  lemma BoxShaped(content: string)
    requires TaskBox(content) > 0
    ensures var n := TaskBox(content); HasBox(content, content[1], content[3..n], content[n..])
  {
    var n := TaskBox(content);
    var gap, text := content[3..n], content[n..];
    assert n == 3 + Leading(content[3..]) && content[0] == '[' && content[2] == ']';
    assert content[1] == ' ' || content[1] == 'x' || content[1] == 'X';
    hide TaskBox, IsSpace, Leading;
    assert content[3..] == gap + text;
    assert content[..3] == "[" + [content[1]] + "]";
    assert content == content[..3] + content[3..];
    assert forall i | 3 <= i < n :: content[i] == content[3..][i - 3];
  }

  /** The column and the number of an item, and what is left of its content. */
  lemma ItemFields(line: string, shape: Shape, item: ListLine<string>)
    requires IsItem(line, shape) && ParseListItem(line) == Some(item)
    ensures item.indent == |Expand(shape.lead)|
    ensures item.ordered == IsNumber(shape.marker)
    ensures item.num == if item.ordered then Some(ParseInt(shape.marker[..|shape.marker| - 1])) else None
    ensures item.task.None? ==> item.content == shape.content
  {
    ItemRead(line, shape);
    assert shape.content[0..] == shape.content;
    hide ParseListItem, IsItem, TaskBox, OneLine, Expand, ParseInt;
  }

  /** A box before the text, and nothing else, makes a task of the item, done or open. */
  lemma ItemTask(line: string, shape: Shape, item: ListLine<string>)
    requires IsItem(line, shape) && ParseListItem(line) == Some(item)
    ensures item.task.Some? <==> exists mark, gap, text :: HasBox(shape.content, mark, gap, text)
    ensures forall mark, gap, text :: HasBox(shape.content, mark, gap, text) ==>
              item.task == Some(mark != ' ') && item.content == text
  {
    ItemRead(line, shape);
    hide ParseListItem, IsItem, TaskBox, OneLine, Expand, ParseInt;
    var content := shape.content;
    if TaskBox(content) > 0 { BoxShaped(content); }
    forall mark, gap, text | HasBox(content, mark, gap, text)
      ensures item.task == Some(mark != ' ') && item.content == text
    {
      BoxIs(content, mark, gap, text);
    }
  }

  /** The digits of an item stand for its number. */
  lemma {:induction false} ParseDecimal(n: nat)
    ensures (forall i | 0 <= i < |Decimal(n)| :: IsDigit(Decimal(n)[i])) && ParseInt(Decimal(n)) == n
    decreases n
  {
    if n >= 10 {
      ParseDecimal(n / 10);
      assert Decimal(n)[..|Decimal(n)| - 1] == Decimal(n / 10);
    } else {
      assert ParseInt([Digit(n)][..0]) == 0;
    }
  }
}
