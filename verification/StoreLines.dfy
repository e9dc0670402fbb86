/** Line indexes and their union. */
module StoreLines {
  import opened Common

  /** `text.split("\n")`. */
  function Lines(text: string): seq<string> { SplitOn(text, '\n') }

  function Join(lines: seq<string>): string { JoinWith(lines, '\n') }

  predicate White(c: char) {
    var n := c as int;
    9 <= n <= 13 || n == 32 || n == 0xa0 || n == 0x1680 || 0x2000 <= n <= 0x200a
    || n == 0x2028 || n == 0x2029 || n == 0x202f || n == 0x205f || n == 0x3000 || n == 0xfeff
  }

  /** `line.trim()` is empty. */
  predicate Blank(line: string) { forall c :: c in line ==> White(c) }

  function Additions(lines: seq<string>, known: seq<string>): (r: seq<string>)
    ensures forall l :: l in r ==> l in lines
    ensures forall l :: l in lines && !Blank(l) && l !in known ==> l in r
  {
    if lines == [] then []
    else (if !Blank(lines[0]) && lines[0] !in known then [lines[0]] else []) + Additions(lines[1..], known)
  }

  /** `replace(/\n*$/, "\n")`, without the newline it leaves. */
  function TrimEnd(text: string): string {
    if text != "" && text[|text| - 1] == '\n' then TrimEnd(text[..|text| - 1]) else text
  }

  function Union(existing: string, incoming: string): string {
    var additions := Additions(Lines(incoming), Lines(existing));
    if additions == [] then existing
    else TrimEnd(Join(Lines(existing))) + "\n" + Join(additions) + "\n"
  }

  predicate LinesKept(from: string, into: string) {
    forall l :: l in Lines(from) && !Blank(l) ==> l in Lines(into)
  }

  lemma {:induction false} TrimKeeps(text: string)
    ensures LinesKept(text, TrimEnd(text))
  {
    if text != "" && text[|text| - 1] == '\n' {
      var head := text[..|text| - 1];
      TrimKeeps(head);
      assert text == head + ['\n'] + "";
      SplitAppend(head, '\n', "");
    }
  }

  /** Every non-blank line of either side is a line of the union. */
  lemma UnionKeeps(existing: string, incoming: string)
    ensures LinesKept(existing, Union(existing, incoming)) && LinesKept(incoming, Union(existing, incoming))
  {
    var additions := Additions(Lines(incoming), Lines(existing));
    if additions != [] {
      var head, tail := TrimEnd(existing), Join(additions);
      JoinSplit(existing, '\n');
      TrimKeeps(existing);
      SplitWhole(incoming, '\n');
      SplitJoin(additions, '\n');
      SplitAppend(tail, '\n', "");
      SplitAppend(head, '\n', tail + ['\n'] + "");
      assert head + ['\n'] + (tail + ['\n'] + "") == Union(existing, incoming);
    }
  }

  /** What is added are, in order, the lines that are neither blank nor known. */
  lemma {:induction false} AdditionsOn(lines: seq<string>, last: string, known: seq<string>)
    ensures Additions(lines + [last], known)
      == Additions(lines, known) + if (exists c :: c in last && !White(c)) && last !in known then [last] else []
  {
    var all := lines + [last];
    if lines == [] {
      assert all[1..] == [];
    } else {
      assert all[1..] == lines[1..] + [last];
      AdditionsOn(lines[1..], last, known);
    }
  }

  lemma {:induction false} NoneAdded(lines: seq<string>, known: seq<string>)
    requires forall l :: l in lines && !Blank(l) ==> l in known
    ensures Additions(lines, known) == []
  {
    if lines != [] { NoneAdded(lines[1..], known); }
  }

  /** The union leaves a file as it is exactly if it has every non-blank line of the other; so a second union with the
      same lines changes nothing. */
  lemma UnionStays(existing: string, incoming: string)
    ensures Union(existing, incoming) == existing <==> LinesKept(incoming, existing)
    ensures Union(Union(existing, incoming), incoming) == Union(existing, incoming)
  {
    UnionKeeps(existing, incoming);
    NoneAdded(Lines(incoming), Lines(Union(existing, incoming)));
    if LinesKept(incoming, existing) { NoneAdded(Lines(incoming), Lines(existing)); }
  }
}
