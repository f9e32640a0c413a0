/** Reading a URL's query string back into its parameters: the part after the
    first `?`, split at every `&`, each field split at its first `=`. */
module QueryStrings {

  /** One `name=value` query parameter. */
  datatype Param = Param(name: string, value: string)

  /** Splits `s` at every occurrence of `sep`; always yields at least one part. */
  function Split(s: string, sep: char): (parts: seq<string>)
    ensures |parts| >= 1
    decreases |s|
  {
    if s == [] then [[]]
    else
      var rest := Split(s[1..], sep);
      if s[0] == sep then [[]] + rest else [[s[0]] + rest[0]] + rest[1..]
  }

  /** Joins the parts with `sep` between each two. */
  function Join(parts: seq<string>, sep: char): string
    requires |parts| >= 1
  {
    if |parts| == 1 then parts[0] else parts[0] + [sep] + Join(parts[1..], sep)
  }

  /** Everything after the first `?`, or nothing when there is none. */
  function QueryString(url: string): string
  {
    if url == [] then []
    else if url[0] == '?' then url[1..]
    else QueryString(url[1..])
  }

  /** Reads one field: the name is what precedes the first `=`, the value what follows. */
  function ParseField(field: string): Param
  {
    if field == [] then Param([], [])
    else if field[0] == '=' then Param([], field[1..])
    else
      var p := ParseField(field[1..]);
      Param([field[0]] + p.name, p.value)
  }

  /** The parameters of a URL, in the order they appear. */
  function Params(url: string): seq<Param>
  {
    var fields := Split(QueryString(url), '&');
    seq(|fields|, i requires 0 <= i < |fields| => ParseField(fields[i]))
  }

  /** A part without the separator is split off whole. */
  lemma {:induction false} SplitAtSeparator(a: string, b: string, sep: char)
    requires sep !in a
    ensures Split(a + [sep] + b, sep) == [a] + Split(b, sep)
    decreases |a|
  {
    if a == [] {
      assert a + [sep] + b == [sep] + b;
      assert ([sep] + b)[1..] == b;
    } else {
      assert (a + [sep] + b)[1..] == a[1..] + [sep] + b;
      SplitAtSeparator(a[1..], b, sep);
      assert [a[0]] + a[1..] == a;
    }
  }

  /** A string without the separator splits into itself. */
  lemma {:induction false} SplitWithoutSeparator(a: string, sep: char)
    requires sep !in a
    ensures Split(a, sep) == [a]
    decreases |a|
  {
    if a != [] {
      SplitWithoutSeparator(a[1..], sep);
      assert [a[0]] + a[1..] == a;
    }
  }

  /** Splitting undoes joining when no part holds the separator. */
  lemma {:induction false} SplitJoin(parts: seq<string>, sep: char)
    requires |parts| >= 1
    requires forall i :: 0 <= i < |parts| ==> sep !in parts[i]
    ensures Split(Join(parts, sep), sep) == parts
    decreases |parts|
  {
    if |parts| == 1 {
      SplitWithoutSeparator(parts[0], sep);
    } else {
      SplitJoin(parts[1..], sep);
      SplitAtSeparator(parts[0], Join(parts[1..], sep), sep);
    }
  }

  /** Joining a part in front of at least one other. */
  lemma JoinCons(a: string, rest: seq<string>, sep: char)
    requires |rest| >= 1
    ensures Join([a] + rest, sep) == a + [sep] + Join(rest, sep)
  {
    assert ([a] + rest)[1..] == rest;
  }

  /** The query string starts after the first `?`. */
  lemma {:induction false} QueryStringAfter(path: string, query: string)
    requires '?' !in path
    ensures QueryString(path + "?" + query) == query
    decreases |path|
  {
    if path == [] {
      assert path + "?" + query == "?" + query;
    } else {
      assert (path + "?" + query)[1..] == path[1..] + "?" + query;
      QueryStringAfter(path[1..], query);
    }
  }

  /** A field reads back as its name and value when the name holds no `=`. */
  lemma {:induction false} ParseFieldOf(name: string, value: string)
    requires '=' !in name
    ensures ParseField(name + "=" + value) == Param(name, value)
    decreases |name|
  {
    if name == [] {
      assert name + "=" + value == "=" + value;
    } else {
      assert (name + "=" + value)[1..] == name[1..] + "=" + value;
      ParseFieldOf(name[1..], value);
      assert [name[0]] + name[1..] == name;
    }
  }

  /** Each field is written `name=value`, with no `=` in the name and no `&` anywhere. */
  predicate SpellsParams(fields: seq<string>, params: seq<Param>)
  {
    |fields| == |params| &&
    (fields != [] ==>
       fields[0] == params[0].name + "=" + params[0].value && '=' !in params[0].name && '&' !in fields[0]
       && SpellsParams(fields[1..], params[1..]))
  }

  lemma {:induction false} SpelledAt(fields: seq<string>, params: seq<Param>, i: nat)
    requires SpellsParams(fields, params) && i < |fields|
    ensures fields[i] == params[i].name + "=" + params[i].value && '=' !in params[i].name && '&' !in fields[i]
    decreases i
  {
    if i > 0 {
      SpelledAt(fields[1..], params[1..], i - 1);
    }
  }

  /** The parameters of a path followed by joined fields are those fields, each read back. */
  lemma ParamsOfFields(path: string, fields: seq<string>)
    requires '?' !in path
    requires |fields| >= 1
    requires forall i :: 0 <= i < |fields| ==> '&' !in fields[i]
    ensures Params(path + "?" + Join(fields, '&'))
      == seq(|fields|, i requires 0 <= i < |fields| => ParseField(fields[i]))
  {
    QueryStringAfter(path, Join(fields, '&'));
    SplitJoin(fields, '&');
  }

  /** Reads back fields that spell the given parameters. */
  lemma ReadBackFields(path: string, fields: seq<string>, params: seq<Param>)
    requires '?' !in path
    requires |fields| >= 1 && SpellsParams(fields, params)
    ensures Params(path + "?" + Join(fields, '&')) == params
  {
    forall i | 0 <= i < |fields|
      ensures '&' !in fields[i] && ParseField(fields[i]) == params[i]
    {
      SpelledAt(fields, params, i);
      ParseFieldOf(params[i].name, params[i].value);
    }
    ParamsOfFields(path, fields);
  }
}
