/** The tracked-user list (`add_user`, `remove_user`, main.py:35-48) and the
    sidebar's comma-separated bulk add (main.py:122-135). The CSV file and
    its `added_at` timestamps are not modelled: the list is held in memory. */
module Users {
  import opened Text
  import opened Frames

  predicate Distinct(s: seq<string>) {
    forall i, j :: 0 <= i < j < |s| ==> s[i] != s[j]
  }

  /** `add_user` accepts a name when, stripped, it is non-empty and not yet listed. */
  predicate Admits(names: seq<string>, name: string) {
    Strip(name) != [] && Strip(name) !in names
  }

  /** The list after `add_user(name)`. */
  function AfterAdd(names: seq<string>, name: string): (r: seq<string>)
    ensures r == names || r == names + [Strip(name)]
    ensures r != names <==> Admits(names, name)
    ensures Strip(name) != [] ==> Strip(name) in r
    ensures Distinct(names) ==> Distinct(r)
  {
    if Admits(names, name) then names + [Strip(name)] else names
  }

  /** Adding the same name twice is adding it once. */
  lemma AfterAddIdempotent(names: seq<string>, name: string)
    ensures AfterAdd(AfterAdd(names, name), name) == AfterAdd(names, name)
  {
  }

  /** The list after `remove_user(name)`: every entry equal to `name` dropped
      (the name is compared as given, not stripped). */
  function Without(names: seq<string>, name: string): (r: seq<string>)
    ensures name !in r
    ensures forall x :: x != name ==> multiset(r)[x] == multiset(names)[x]
  {
    if names == [] then []
    else
      var rest := Without(names[..|names| - 1], name);
      assert names == names[..|names| - 1] + [names[|names| - 1]];
      if names[|names| - 1] == name then rest else rest + [names[|names| - 1]]
  }

  /** Removal works entry by entry, so the kept entries stay in their order. */
  lemma {:induction false} WithoutAppend(a: seq<string>, b: seq<string>, name: string)
    ensures Without(a + b, name) == Without(a, name) + Without(b, name)
  {
    if b == [] {
      assert a + b == a;
    } else {
      var b' := b[..|b| - 1];
      assert (a + b)[..|a + b| - 1] == a + b';
      WithoutAppend(a, b', name);
    }
  }

  /** `remove_user` is the row selection `df[df["username"] != name]`: the
      other entries stay, in their original order. */
  lemma {:induction false} WithoutIsSelection(names: seq<string>, name: string)
    ensures Without(names, name) == Filter(names, (x: string) => x != name)
  {
    if names != [] {
      WithoutIsSelection(names[..|names| - 1], name);
    }
  }

  /** Removing a name that is not listed changes nothing. */
  lemma {:induction false} WithoutAbsent(names: seq<string>, name: string)
    requires name !in names
    ensures Without(names, name) == names
  {
    if names != [] {
      WithoutAbsent(names[..|names| - 1], name);
      assert names == names[..|names| - 1] + [names[|names| - 1]];
    }
  }

  /** Removal keeps a list without duplicates without duplicates. */
  lemma {:induction false} WithoutDistinct(names: seq<string>, name: string)
    requires Distinct(names)
    ensures Distinct(Without(names, name))
  {
    if names != [] {
      var init := names[..|names| - 1];
      WithoutDistinct(init, name);
      var last := names[|names| - 1];
      assert last !in init;
      assert multiset(Without(init, name))[last] == 0 by {
        if last != name {
          assert multiset(init)[last] == 0;
        }
      }
    }
  }

  /** The stripped, non-empty pieces of `pieces`, in order. */
  function StrippedTokens(pieces: seq<string>): (r: seq<string>)
    ensures forall i :: 0 <= i < |r| ==> r[i] != [] && Strip(r[i]) == r[i]
  {
    if pieces == [] then []
    else
      var rest := StrippedTokens(pieces[..|pieces| - 1]);
      var t := Strip(pieces[|pieces| - 1]);
      StripIdempotent(pieces[|pieces| - 1]);
      if t != [] then rest + [t] else rest
  }

  /** The tokens are exactly the non-blank pieces, stripped. */
  lemma {:induction false} StrippedTokensMembers(pieces: seq<string>)
    ensures forall t :: t in StrippedTokens(pieces) <==> t != [] && exists p :: p in pieces && Strip(p) == t
  {
    if pieces != [] {
      var init := pieces[..|pieces| - 1];
      var last := pieces[|pieces| - 1];
      StrippedTokensMembers(init);
      assert pieces == init + [last];
      forall t | t != [] && (exists p :: p in pieces && Strip(p) == t)
        ensures t in StrippedTokens(pieces)
      {
        var p :| p in pieces && Strip(p) == t;
        if p != last {
          assert p in init;
        }
      }
    }
  }

  /** A single piece yields its stripped text, or nothing when it is blank. */
  lemma StrippedTokensSingle(p: string)
    ensures StrippedTokens([p]) == if Strip(p) != [] then [Strip(p)] else []
  {
    assert [p][..0] == [];
  }

  /** `[x.strip() for x in bulk_input.split(",") if x.strip()]` (main.py:126). */
  function ParseBulk(input: string): (r: seq<string>)
    ensures forall i :: 0 <= i < |r| ==> r[i] != [] && Strip(r[i]) == r[i]
  {
    StrippedTokens(Split(input, ','))
  }
  /** The names parsed from the input are exactly its non-blank
      comma-separated pieces, stripped. */
  lemma ParseBulkNames(input: string)
    ensures forall t :: t in ParseBulk(input) <==> t != [] && exists p :: p in Split(input, ',') && Strip(p) == t
  {
    StrippedTokensMembers(Split(input, ','));
  }


  /** Input made only of white space yields no names. */
  lemma ParseBulkBlank(input: string)
    requires AllSpace(input)
    ensures ParseBulk(input) == []
  {
    var pieces := Split(input, ',');
    assert forall i :: 0 <= i < |pieces| ==> AllSpace(pieces[i]) by {
      forall i, k | 0 <= i < |pieces| && 0 <= k < |pieces[i]| ensures IsSpace(pieces[i][k]) {
        assert pieces[i][k] in pieces[i];
        assert pieces[i][k] in input;
        var j :| 0 <= j < |input| && input[j] == pieces[i][k];
      }
    }
    BlankTokens(pieces);
  }

  lemma {:induction false} BlankTokens(pieces: seq<string>)
    requires forall i :: 0 <= i < |pieces| ==> AllSpace(pieces[i])
    ensures StrippedTokens(pieces) == []
  {
    if pieces != [] {
      BlankTokens(pieces[..|pieces| - 1]);
    }
  }

  /** Every non-blank piece between the commas is one name, in input order. */
  lemma {:induction false} StrippedTokensOrder(a: seq<string>, b: seq<string>)
    ensures StrippedTokens(a + b) == StrippedTokens(a) + StrippedTokens(b)
  {
    if b == [] {
      assert a + b == a;
    } else {
      var b' := b[..|b| - 1];
      assert (a + b)[..|a + b| - 1] == a + b';
      StrippedTokensOrder(a, b');
    }
  }

  /** The list after calling `add_user` on each token in turn. */
  function AddAll(names: seq<string>, tokens: seq<string>): seq<string>
  {
    if tokens == [] then names
    else AfterAdd(AddAll(names, tokens[..|tokens| - 1]), tokens[|tokens| - 1])
  }

  /** The names the bulk add reports as added, in the order they were added. */
  function Added(names: seq<string>, tokens: seq<string>): seq<string>
  {
    if tokens == [] then []
    else
      var before := tokens[..|tokens| - 1];
      var t := tokens[|tokens| - 1];
      Added(names, before) + (if Admits(AddAll(names, before), t) then [Strip(t)] else [])
  }

  /** A bulk add appends exactly the reported names to the old list. */
  lemma {:induction false} AddAllAppends(names: seq<string>, tokens: seq<string>)
    ensures AddAll(names, tokens) == names + Added(names, tokens)
  {
    if tokens != [] {
      AddAllAppends(names, tokens[..|tokens| - 1]);
    }
  }

  /** A bulk add never creates a duplicate, and the names it adds are new. */
  lemma {:induction false} AddAllDistinct(names: seq<string>, tokens: seq<string>)
    requires Distinct(names)
    ensures Distinct(AddAll(names, tokens))
    ensures forall x :: x in Added(names, tokens) ==> x !in names
  {
    if tokens != [] {
      var before := tokens[..|tokens| - 1];
      AddAllDistinct(names, before);
      AddAllAppends(names, before);
    }
  }

  /** A bulk add drops nobody already listed. */
  lemma {:induction false} AddAllKeeps(names: seq<string>, tokens: seq<string>, x: string)
    requires x in names
    ensures x in AddAll(names, tokens)
  {
    AddAllAppends(names, tokens);
  }

  /** After a bulk add every non-blank token is listed. */
  lemma {:induction false} AddAllCovers(names: seq<string>, tokens: seq<string>, k: nat)
    requires k < |tokens| && Strip(tokens[k]) != []
    ensures Strip(tokens[k]) in AddAll(names, tokens)
  {
    var before := tokens[..|tokens| - 1];
    if k < |tokens| - 1 {
      assert tokens[k] == before[k];
      AddAllCovers(names, before, k);
      AddAllKeeps(AddAll(names, before), [tokens[|tokens| - 1]], Strip(tokens[k]));
      assert [tokens[|tokens| - 1]][..0] == [];
    }
  }

  /** One more token in a bulk add: one more call of `add_user`. */
  lemma BulkStep(names: seq<string>, tokens: seq<string>, i: nat)
    requires i < |tokens|
    ensures AddAll(names, tokens[..i + 1]) == AfterAdd(AddAll(names, tokens[..i]), tokens[i])
    ensures Added(names, tokens[..i + 1])
         == Added(names, tokens[..i]) + (if Admits(AddAll(names, tokens[..i]), tokens[i]) then [Strip(tokens[i])] else [])
  {
    assert tokens[..i + 1][..i] == tokens[..i];
  }

  /** The outcome the sidebar reports for a bulk add (main.py:124-135). */
  datatype BulkOutcome =
    | NothingEntered            // "Enter at least one username."
    | NoneAdded                 // "All usernames already exist."
    | AddedNames(added: seq<string>)

  /** The tracked-user list. */
  class UserList {
    var names: seq<string>

    constructor (initial: seq<string>)
      ensures names == initial
    {
      names := initial;
    }

    /** `add_user(name)`. */
    method Add(name: string) returns (added: bool)
      modifies this
      ensures added == Admits(old(names), name)
      ensures names == AfterAdd(old(names), name)
    {
      var u := Strip(name);
      if u != [] && u !in names {
        names := names + [u];
        return true;
      }
      return false;
    }

    /** `remove_user(name)`. */
    method Remove(name: string)
      modifies this
      ensures names == Without(old(names), name)
    {
      names := Without(names, name);
    }

    /** The "Add User(s)" button: each comma-separated token, stripped and
        non-blank, goes through `add_user` in input order. */
    method AddBulk(input: string) returns (outcome: BulkOutcome)
      modifies this
      ensures names == AddAll(old(names), ParseBulk(input))
      ensures names == old(names) + Added(old(names), ParseBulk(input))
      ensures AllSpace(input) ==> outcome == NothingEntered
      ensures !AllSpace(input) ==>
                outcome == (if Added(old(names), ParseBulk(input)) == [] then NoneAdded
                            else AddedNames(Added(old(names), ParseBulk(input))))
    {
      var tokens := ParseBulk(input);
      AddAllAppends(names, tokens);
      if Strip(input) == [] {
        ParseBulkBlank(input);
        return NothingEntered;
      }
      ghost var start := names;
      var added: seq<string> := [];
      var i := 0;
      while i < |tokens|
        invariant 0 <= i <= |tokens|
        invariant names == AddAll(start, tokens[..i])
        invariant added == Added(start, tokens[..i])
      {
        BulkStep(start, tokens, i);
        assert Strip(tokens[i]) == tokens[i];
        var ok := Add(tokens[i]);
        if ok {
          added := added + [tokens[i]];
        }
        i := i + 1;
      }
      assert i == |tokens|;
      assert tokens[..|tokens|] == tokens;
      outcome := if added == [] then NoneAdded else AddedNames(added);
    }
  }
}
