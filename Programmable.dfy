/** The script variable store shared by worlds and entities: every name maps
    to a variable that always has both a number and a string. Numbers are
    `f32` in the engine and exact reals here. */
module Programmable {

  /** A script variable; `Default` is `Variable::default()`. */
  datatype Variable = Variable(num: real, str: string)

  const Default := Variable(0.0, "")

  /** `Programmable`: the variables by name. */
  type Programmable = map<string, Variable>

  /** What `getNum` answers: the stored number, or 0 for an unknown name. */
  function NumOf(p: Programmable, name: string): real
  {
    if name in p then p[name].num else Default.num
  }

  /** What `getStr` answers: the stored string, or "" for an unknown name. */
  function StrOf(p: Programmable, name: string): string
  {
    if name in p then p[name].str else Default.str
  }

  /** The store after `setNum(name, v)`: an existing entry gets the new
      number and keeps its string, an unknown name gets a new entry with an
      empty string, and every other entry is untouched. */
  function WithNum(p: Programmable, name: string, v: real): (r: Programmable)
    ensures r.Keys == p.Keys + {name}
    ensures name in p ==> r[name] == Variable(v, p[name].str)
    ensures name !in p ==> r[name] == Variable(v, "")
    ensures forall k :: k in p && k != name ==> r[k] == p[k]
  {
    if name in p then p[name := p[name].(num := v)] else p[name := Variable(v, "")]
  }

  /** The store after `setStr(name, s)`: an existing entry gets the new
      string and keeps its number, an unknown name gets a new entry with
      number 0, and every other entry is untouched. */
  function WithStr(p: Programmable, name: string, s: string): (r: Programmable)
    ensures r.Keys == p.Keys + {name}
    ensures name in p ==> r[name] == Variable(p[name].num, s)
    ensures name !in p ==> r[name] == Variable(0.0, s)
    ensures forall k :: k in p && k != name ==> r[k] == p[k]
  {
    if name in p then p[name := p[name].(str := s)] else p[name := Variable(0.0, s)]
  }

  /** Reading back a number that was just set gives it, the string beside it
      reads as before, and every other name reads as before. */
  lemma NumSetGet(p: Programmable, name: string, v: real, other: string)
    ensures NumOf(WithNum(p, name, v), name) == v
    ensures StrOf(WithNum(p, name, v), name) == StrOf(p, name)
    ensures other != name ==> NumOf(WithNum(p, name, v), other) == NumOf(p, other)
    ensures other != name ==> StrOf(WithNum(p, name, v), other) == StrOf(p, other)
  {
  }

  /** Reading back a string that was just set gives it, the number beside it
      reads as before, and every other name reads as before. */
  lemma StrSetGet(p: Programmable, name: string, s: string, other: string)
    ensures StrOf(WithStr(p, name, s), name) == s
    ensures NumOf(WithStr(p, name, s), name) == NumOf(p, name)
    ensures other != name ==> NumOf(WithStr(p, name, s), other) == NumOf(p, other)
    ensures other != name ==> StrOf(WithStr(p, name, s), other) == StrOf(p, other)
  {
  }

  /** Setting the number and the string of a name, in either order, gives
      the same store. */
  lemma SetsCommute(p: Programmable, name: string, v: real, s: string)
    ensures WithStr(WithNum(p, name, v), name, s) == WithNum(WithStr(p, name, s), name, v)
  {
    var a := WithStr(WithNum(p, name, v), name, s);
    var b := WithNum(WithStr(p, name, s), name, v);
    assert a.Keys == b.Keys;
    assert a[name] == Variable(v, s) == b[name];
  }

  /** The store after copying every variable of `supplied` into `p`: keys of
      `supplied` take its values, all other keys of `p` keep theirs. */
  function Merge(p: Programmable, supplied: Programmable): (r: Programmable)
    ensures r.Keys == p.Keys + supplied.Keys
    ensures forall k :: k in supplied ==> r[k] == supplied[k]
    ensures forall k :: k in p && k !in supplied ==> r[k] == p[k]
  {
    p + supplied
  }

  /** The variables of `supplied` whose names are in `done`. */
  function Copied(supplied: Programmable, done: set<string>): (r: Programmable)
    ensures r.Keys == supplied.Keys * done
  {
    map k | k in supplied.Keys * done :: supplied[k]
  }

  /** Copying one more supplied variable into a partly merged store gives
      the store with that name copied too. */
  lemma CopyStep(p: Programmable, supplied: Programmable, done: set<string>, key: string)
    requires key in supplied
    ensures (p + Copied(supplied, done))[key := supplied[key]] == p + Copied(supplied, done + {key})
  {
    var a := (p + Copied(supplied, done))[key := supplied[key]];
    var b := p + Copied(supplied, done + {key});
    assert a.Keys == b.Keys;
  }

  /** Once every supplied name is copied, the store is the merge. */
  lemma CopiedAll(p: Programmable, supplied: Programmable)
    ensures p + Copied(supplied, supplied.Keys) == Merge(p, supplied)
  {
    assert Copied(supplied, supplied.Keys) == supplied;
  }
}
