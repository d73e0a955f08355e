/**
 Values as text: VariableUtils::printValue of lib/variables/Variables.cpp and the numbers of
 std::to_string, and which values can be told from their text.
 */
module Printing {
  import opened Values

  // -------------------------------------------------------------------- numbers as text

  function Digit(d: nat): (c: char)
    requires d < 10
    ensures IsDigit(c) && c as int - '0' as int == d
  {
    (d + '0' as int) as char
  }

  function NatText(n: nat): (s: string)
    ensures s != [] && forall i :: 0 <= i < |s| ==> IsDigit(s[i])
  {
    if n < 10 then [Digit(n)] else NatText(n / 10) + [Digit(n % 10)]
  }

  /** The number a text of digits stands for. */
  function NatValue(s: string): nat
    requires forall i :: 0 <= i < |s| ==> IsDigit(s[i])
  {
    if s == [] then 0
    else
      var last := s[|s| - 1];
      assert IsDigit(last);
      10 * NatValue(s[..|s| - 1]) + (last as int - '0' as int)
  }

  lemma {:induction false} NatTextValue(n: nat)
    ensures NatValue(NatText(n)) == n
  {
    if n < 10 {
      assert NatText(n)[..0] == [];
    } else {
      NatTextValue(n / 10);
      assert NatText(n)[..|NatText(n)| - 1] == NatText(n / 10);
    }
  }

  function IntText(n: int): (s: string)
    ensures s != [] && ',' !in s
  {
    if n < 0 then "-" + NatText(-n) else NatText(n)
  }

  lemma {:induction false} Sign(n: int)
    ensures IntText(n)[0] == '-' <==> n < 0
  {
    if n >= 0 {
      assert IsDigit(NatText(n)[0]);
    }
  }

  lemma {:induction false} IntTextInjective(a: int, b: int)
    requires IntText(a) == IntText(b)
    ensures a == b
  {
    Sign(a);
    Sign(b);
    if a < 0 {
      assert IntText(a)[1..] == NatText(-a) && IntText(b)[1..] == NatText(-b);
      NatTextValue(-a);
      NatTextValue(-b);
    } else {
      NatTextValue(a);
      NatTextValue(b);
    }
  }

  /** The number a text reads as, 0 if it is not a number. */
  function IntValue(s: string): int {
    if s != "" && (forall i :: 0 <= i < |s| ==> IsDigit(s[i])) then NatValue(s)
    else if |s| > 1 && s[0] == '-' && (forall i :: 1 <= i < |s| ==> IsDigit(s[i])) then 0 - NatValue(s[1..])
    else 0
  }

  lemma {:induction false} IntTextValue(n: int)
    ensures IntValue(IntText(n)) == n
  {
    if n < 0 {
      assert IntText(n)[1..] == NatText(-n) && !IsDigit(IntText(n)[0]);
      NatTextValue(-n);
    } else {
      NatTextValue(n);
    }
  }

  // -------------------------------------------------------------------- printing values

  /** A value as it is printed, the pointers of a list followed. */
  datatype Printable =
    | Number(i: int)
    | Text(s: string)
    | Truth(b: bool)
    | Items(items: seq<Printable>)
    | Nothing

  /** Numbers of the source's width. */
  predicate Proper(v: Printable)
    decreases v
  {
    (v.Number? ==> FitsInt(v.i)) && (v.Items? ==> forall i :: 0 <= i < |v.items| ==> Proper(v.items[i]))
  }

  function Printed(v: Printable): string
    decreases v, 0
  {
    match v
    case Number(i) => IntText(i)
    case Text(s) => s
    case Truth(b) => if b then "1" else "0"
    case Items(items) => PrintedItems(items)
    case Nothing => ""
  }

  /** Each item is followed by a separator. */
  function PrintedItems(items: seq<Printable>): string
    decreases items
  {
    if items == [] then "" else PrintedItems(items[..|items| - 1]) + (Printed(items[|items| - 1]) + ", ")
  }

  class Stream {
    var text: string

    constructor ()
      ensures text == ""
    {
      text := "";
    }

    method PrintValue(v: Printable, delim: string)
      modifies this
      ensures text == old(text) + Printed(v) + delim
      decreases v
    {
      match v {
        case Number(i) => text := text + IntText(i);
        case Text(s) => text := text + s;
        case Truth(b) => text := text + (if b then "1" else "0");
        case Items(items) =>
          for k := 0 to |items|
            invariant text == old(text) + PrintedItems(items[..k])
          {
            PrintValue(items[k], ", ");
            assert items[..k + 1][..k] == items[..k];
          }
          assert items[..|items|] == items;
        case Nothing =>
      }
      text := text + delim;
    }
  }

  // -------------------------------------------------------------------- what can be told from the text

  predicate ReadsAsNumber(s: string) { FitsInt(IntValue(s)) && IntText(IntValue(s)) == s }

  predicate EndsInSeparator(s: string) { |s| >= 2 && s[|s| - 2..] == ", " }

  /** Texts that nothing else prints as. */
  predicate Distinctive(v: Printable) {
    v.Text? && v.s != "" && !ReadsAsNumber(v.s) && !EndsInSeparator(v.s)
  }

  /** The text of anything but a text is not distinctive. */
  lemma {:induction false} NothingElseIsDistinctive(w: Printable)
    requires Proper(w) && !w.Text?
    ensures !Distinctive(Text(Printed(w)))
  {
    match w
    case Number(i) => IntTextValue(i);
    case Truth(b) =>
      var n := if b then 1 else 0;
      IntTextValue(n);
      assert IntText(n) == [Digit(n)] == Printed(w);
    case Items(items) =>
      if items != [] {
        var front, last := PrintedItems(items[..|items| - 1]), Printed(items[|items| - 1]);
        assert Printed(w) == (front + last) + ", ";
      }
    case Nothing =>
  }

  lemma {:induction false} DistinctiveIsOnly(v: Printable, w: Printable)
    requires Distinctive(v) && Proper(w) && Printed(w) == Printed(v)
    ensures w == v
  {
    if !w.Text? {
      NothingElseIsDistinctive(w);
    }
  }

  /** Anything else shares its text with another value. */
  lemma {:induction false} Disguise(v: Printable) returns (w: Printable)
    requires Proper(v) && !Distinctive(v)
    ensures Proper(w) && w != v && Printed(w) == Printed(v)
  {
    if !v.Text? {
      w := Text(Printed(v));
    } else if v.s == "" {
      w := Nothing;
    } else if ReadsAsNumber(v.s) {
      w := Number(IntValue(v.s));
    } else {
      var inner := v.s[..|v.s| - 2];
      w := Items([Text(inner)]);
      assert PrintedItems([Text(inner)]) == PrintedItems([]) + (inner + ", ");
    }
  }

  /** A value can be told from its text if and only if it is a text of which none of this is true. */
  lemma {:induction false} ToldFromTextIff(v: Printable)
    requires Proper(v)
    ensures (forall w :: Proper(w) && Printed(w) == Printed(v) ==> w == v) <==> Distinctive(v)
  {
    if Distinctive(v) {
      forall w | Proper(w) && Printed(w) == Printed(v)
        ensures w == v
      {
        DistinctiveIsOnly(v, w);
      }
    } else {
      var w := Disguise(v);
    }
  }

  /** Both numbers, both texts or both truth values. */
  predicate SameType(v: Printable, w: Printable) {
    (v.Number? && w.Number?) || (v.Text? && w.Text?) || (v.Truth? && w.Truth?)
  }

  lemma {:induction false} ToldWithinType(v: Printable, w: Printable)
    requires SameType(v, w) && Printed(v) == Printed(w)
    ensures v == w
  {
    if v.Number? {
      IntTextInjective(v.i, w.i);
    } else if v.Truth? {
      assert "1"[0] != "0"[0];
    }
  }

  /** Numbers, truth values and texts are confused, and so are lists of texts. */
  lemma {:induction false} Confusions()
    ensures Printed(Number(1)) == Printed(Truth(true)) == Printed(Text("1")) == "1"
    ensures Printed(Number(0)) == Printed(Truth(false)) == Printed(Text("0")) == "0"
    ensures Printed(Items([Text("a, b")])) == Printed(Items([Text("a"), Text("b")])) == "a, b, "
  {
    assert IntText(1) == [Digit(1)] == "1" && IntText(0) == [Digit(0)] == "0";
    assert PrintedItems([]) == "";
    assert [Text("a"), Text("b")][..1] == [Text("a")] && [Text("a")][..0] == [];
    assert PrintedItems([Text("a")]) == "a, ";
    assert PrintedItems([Text("a"), Text("b")]) == "a, b, ";
    assert [Text("a, b")][..0] == [];
    assert PrintedItems([Text("a, b")]) == "a, b, ";
  }
}
