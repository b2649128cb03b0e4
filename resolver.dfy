/// splitField (Program.cs:28-40) as functions: the segments it returns
/// (`Resolve`) and the value it leaves in the process-wide `sschema` field
/// (`SchemaAfter`). The imperative method that overwrites the field is
/// Converter.SplitField; `LastSchema` gives the field's value after a run
/// of calls, so that "the last call that found a schema prefix wins" can be
/// stated and proved.
module Resolver {
  import opened Strings

  /** The table segment of a qualified identifier: the text before the first '.'. */
  function TableSegment(s: string): string {
    Split(s, '.')[0]
  }

  /** The table segment has an '_' at an index greater than 0. */
  predicate HasSchemaPrefix(s: string) {
    IndexOf(TableSegment(s), '_') > 0
  }

  /** The text of the table segment before its first '_'. */
  function SchemaPrefix(s: string): string
    requires HasSchemaPrefix(s)
  {
    Split(TableSegment(s), '_')[0]
  }

  /** The schema prefix is the non-empty, '_'-free text before the first '_'. */
  lemma SchemaPrefixSpec(s: string)
    requires HasSchemaPrefix(s)
    ensures var p := SchemaPrefix(s);
      && |p| > 0 && '_' !in p
      && p == TableSegment(s)[..IndexOf(TableSegment(s), '_')]
  {
    IndexOfFirst(TableSegment(s), '_');
  }

  /** The segments splitField returns: the '.'-segments of `s`, with a schema
      prefix cut off the table segment. */
  function Resolve(s: string): (parts: seq<string>)
    ensures |parts| == |Split(s, '.')|
  {
    var mysplit := Split(s, '.');
    var i9 := IndexOf(mysplit[0], '_');
    if i9 > 0 then mysplit[0 := mysplit[0][i9 + 1..]] else mysplit
  }

  /** splitField keeps every segment after the table segment, and cuts the
      schema prefix and its '_' off the table segment when it has one. */
  lemma ResolveSegments(s: string)
    ensures var parts := Resolve(s);
      && parts[1..] == Split(s, '.')[1..]
      && (HasSchemaPrefix(s) ==> TableSegment(s) == SchemaPrefix(s) + "_" + parts[0])
      && (!HasSchemaPrefix(s) ==> parts[0] == TableSegment(s))
  {
    var mysplit := Split(s, '.');
    var i9 := IndexOf(mysplit[0], '_');
    if i9 > 0 {
      IndexOfFirst(mysplit[0], '_');
      assert mysplit[0] == mysplit[0][..i9] + "_" + mysplit[0][i9 + 1..];
    }
  }

  /** The value of `sschema` after splitField(s), given its value before. */
  function SchemaAfter(s: string, schema: string): string {
    if HasSchemaPrefix(s) then SchemaPrefix(s) else schema
  }

  /** The value of `sschema` after splitField has been called on each of
      `keys` in turn. */
  function LastSchema(keys: seq<string>, schema: string): string {
    if keys == [] then schema
    else SchemaAfter(keys[|keys| - 1], LastSchema(keys[..|keys| - 1], schema))
  }

  /** Resolve loses nothing: putting the schema prefix back and joining the
      segments with '.' gives the identifier back. */
  lemma ResolveRoundTrip(s: string)
    ensures var parts := Resolve(s);
      Join(if HasSchemaPrefix(s) then parts[0 := SchemaPrefix(s) + "_" + parts[0]] else parts, '.') == s
  {
    var parts := Resolve(s);
    ResolveSegments(s);
    JoinSplit(s, '.');
    if HasSchemaPrefix(s) {
      assert parts[0 := SchemaPrefix(s) + "_" + parts[0]] == Split(s, '.');
    } else {
      assert parts == Split(s, '.');
    }
  }

  /** Running the calls of `a` and then those of `b` is running `a + b`. */
  lemma {:induction false} LastSchemaAppend(a: seq<string>, b: seq<string>, schema: string)
    ensures LastSchema(a + b, schema) == LastSchema(b, LastSchema(a, schema))
    decreases |b|
  {
    if b == [] {
      assert a + b == a;
    } else {
      var b', last := b[..|b| - 1], b[|b| - 1];
      assert LastSchema(a + b, schema) == SchemaAfter(last, LastSchema(a + b', schema)) by {
        assert (a + b)[..|a + b| - 1] == a + b';
        assert (a + b)[|a + b| - 1] == last;
      }
      LastSchemaAppend(a, b', schema);
    }
  }

  /** Calls on keys without a schema prefix leave `sschema` as it was. */
  lemma {:induction false} NoWriterKeepsSchema(keys: seq<string>, schema: string)
    requires forall j :: 0 <= j < |keys| ==> !HasSchemaPrefix(keys[j])
    ensures LastSchema(keys, schema) == schema
    decreases |keys|
  {
    if keys != [] {
      NoWriterKeepsSchema(keys[..|keys| - 1], schema);
    }
  }

  /** Last writer wins: `sschema` holds the prefix of the last key that had one. */
  lemma {:induction false} LastWriterWins(keys: seq<string>, schema: string, k: nat)
    requires k < |keys| && HasSchemaPrefix(keys[k])
    requires forall j :: k < j < |keys| ==> !HasSchemaPrefix(keys[j])
    ensures LastSchema(keys, schema) == SchemaPrefix(keys[k])
    decreases |keys|
  {
    if k < |keys| - 1 {
      LastWriterWins(keys[..|keys| - 1], schema, k);
    }
  }
}
