/** The two example functions of `app_prueba.calc`. */
module Calc {
  /** `add`: Python integers are unbounded, so is the sum. */
  function Add(a: int, b: int): (r: int)
    ensures r - b == a && r - a == b
  {
    a + b
  }

  /** `greet`: "Hello, " then the name then "!". */
  function Greet(name: string): (r: string)
    ensures |r| == |name| + 8
    ensures r[..7] == "Hello, " && r[|r| - 1] == '!'
    ensures r[7..|r| - 1] == name
  {
    "Hello, " + name + "!"
  }

  /** Reads the name back out of a greeting. */
  function GreetedName(greeting: string): string
    requires |greeting| >= 8
  {
    greeting[7..|greeting| - 1]
  }

  /** Adding is commutative and 0 is its identity. */
  lemma AddLaws(a: int, b: int)
    ensures Add(a, b) == Add(b, a)
    ensures Add(a, 0) == a
  {
  }

  /** The name can be read back out of its greeting, so different names get
      different greetings. */
  lemma GreetRoundTrip(name: string)
    ensures GreetedName(Greet(name)) == name
  {
  }

  lemma GreetInjective(x: string, y: string)
    ensures Greet(x) == Greet(y) ==> x == y
  {
    if Greet(x) == Greet(y) {
      GreetRoundTrip(x);
      GreetRoundTrip(y);
    }
  }

  /** The values the unit tests expect. */
  lemma CalcExamples()
    ensures Add(2, 3) == 5 && Add(0, 0) == 0 && Add(-1, 1) == 0
    ensures Greet("World") == "Hello, World!" && Greet("") == "Hello, !"
  {
  }
}
