/** The orders Python gives strings and tuples: lexicographic, by character and by part. */
module Order {
  predicate StringLe(a: string, b: string) {
    a == "" || (b != "" && (a[0] < b[0] || (a[0] == b[0] && StringLe(a[1..], b[1..]))))
  }

  lemma {:induction false} StringLeTotal(a: string, b: string)
    ensures StringLe(a, b) || StringLe(b, a)
  {
    if a != "" && b != "" && a[0] == b[0] {
      StringLeTotal(a[1..], b[1..]);
    }
  }

  lemma {:induction false} StringLeAntisymmetric(a: string, b: string)
    requires StringLe(a, b) && StringLe(b, a)
    ensures a == b
  {
    if a != "" && b != "" {
      StringLeAntisymmetric(a[1..], b[1..]);
      assert a == [a[0]] + a[1..] && b == [b[0]] + b[1..];
    }
  }

  lemma {:induction false} StringLeTransitive(a: string, b: string, c: string)
    requires StringLe(a, b) && StringLe(b, c)
    ensures StringLe(a, c)
  {
    if a != "" && a[0] == b[0] && b[0] == c[0] {
      StringLeTransitive(a[1..], b[1..], c[1..]);
    }
  }

  /** One part of a sort key. */
  datatype Part = Word(text: string) | Number(value: int)

  predicate PartLe(a: Part, b: Part) {
    match (a, b)
    case (Word(x), Word(y)) => StringLe(x, y)
    case (Number(x), Number(y)) => x <= y
    case (Number(_), Word(_)) => true
    case (Word(_), Number(_)) => false
  }

  /** Tuples of parts, compared at the first part that differs. */
  predicate KeyLe(a: seq<Part>, b: seq<Part>) {
    a == [] || (b != [] && (if a[0] == b[0] then KeyLe(a[1..], b[1..]) else PartLe(a[0], b[0])))
  }

  lemma {:induction false} KeyLeTotal(a: seq<Part>, b: seq<Part>)
    ensures KeyLe(a, b) || KeyLe(b, a)
  {
    if a != [] && b != [] {
      if a[0] == b[0] {
        KeyLeTotal(a[1..], b[1..]);
      } else if a[0].Word? && b[0].Word? {
        StringLeTotal(a[0].text, b[0].text);
      }
    }
  }

  lemma {:induction false} PartLeAntisymmetric(a: Part, b: Part)
    requires PartLe(a, b) && PartLe(b, a)
    ensures a == b
  {
    if a.Word? {
      StringLeAntisymmetric(a.text, b.text);
    }
  }

  lemma {:induction false} KeyLeAntisymmetric(a: seq<Part>, b: seq<Part>)
    requires KeyLe(a, b) && KeyLe(b, a)
    ensures a == b
  {
    if a != [] {
      if a[0] == b[0] {
        KeyLeAntisymmetric(a[1..], b[1..]);
        assert a == [a[0]] + a[1..] && b == [b[0]] + b[1..];
      } else {
        PartLeAntisymmetric(a[0], b[0]);
      }
    }
  }

  lemma {:induction false} KeyLeTransitive(a: seq<Part>, b: seq<Part>, c: seq<Part>)
    requires KeyLe(a, b) && KeyLe(b, c)
    ensures KeyLe(a, c)
  {
    if a != [] {
      if a[0] == b[0] == c[0] {
        KeyLeTransitive(a[1..], b[1..], c[1..]);
      } else if a[0] == c[0] {
        PartLeAntisymmetric(a[0], b[0]);
      } else if a[0].Word? && b[0].Word? && c[0].Word? && a[0] != b[0] && b[0] != c[0] {
        StringLeTransitive(a[0].text, b[0].text, c[0].text);
      }
    }
  }
}
