/** Offline map tools (temp_tools/json_maker.py): collecting each lemma's forms into a
    forward map, and inverting a forward map (lemma to forms) into a reverse map (form to
    the lemmas that list it). */
module JsonMaker {
  import opened Common

  // ---------------------------------------------------------------------------------
  // lemma_forms_parser: accumulating the forward map

  /** The forms paired with `lem`, in encounter order, repeats kept. */
  function FormsOf(pairs: seq<(string, string)>, lem: string): seq<string> {
    if pairs == [] then []
    else
      var n := |pairs| - 1;
      FormsOf(pairs[..n], lem) + (if pairs[n].0 == lem then [pairs[n].1] else [])
  }

  /** The accumulation loop of lemma_forms_parser, over the (lemma, form) pairs the XML
      entries yield in order: each pair appends its form to its lemma's list, creating the
      list on the lemma's first form; a lemma is a key exactly when it has forms. */
  method CollectForms(pairs: seq<(string, string)>) returns (data: map<string, seq<string>>)
    ensures forall lem :: lem in data <==> FormsOf(pairs, lem) != []
    ensures forall lem | lem in data :: data[lem] == FormsOf(pairs, lem)
  {
    data := map[];
    for i := 0 to |pairs|
      invariant forall lem :: lem in data <==> FormsOf(pairs[..i], lem) != []
      invariant forall lem | lem in data :: data[lem] == FormsOf(pairs[..i], lem)
    {
      var (lem, form) := pairs[i];
      assert pairs[..i + 1][..i] == pairs[..i];
      if lem in data {
        data := data[lem := data[lem] + [form]];
      } else {
        data := data[lem := [form]];
      }
    }
    assert pairs[..|pairs|] == pairs;
  }

  /** A lemma has forms exactly when some pair names it, and its forms are exactly those
      paired with it. */
  lemma FormsOfMembers(pairs: seq<(string, string)>, lem: string)
    ensures FormsOf(pairs, lem) != [] <==> exists j | 0 <= j < |pairs| :: pairs[j].0 == lem
    ensures forall f :: f in FormsOf(pairs, lem) <==> exists j | 0 <= j < |pairs| :: pairs[j] == (lem, f)
  {
    FormsOfElems(pairs, lem);
    var forms := FormsOf(pairs, lem);
    if forms != [] {
      assert forms[0] in forms;
    }
    if exists j | 0 <= j < |pairs| :: pairs[j].0 == lem {
      var j :| 0 <= j < |pairs| && pairs[j].0 == lem;
      assert pairs[j] == (lem, pairs[j].1);
    }
  }

  /** The forms of `lem` are exactly those paired with it. */
  lemma {:induction false} FormsOfElems(pairs: seq<(string, string)>, lem: string)
    ensures forall f :: f in FormsOf(pairs, lem) <==> exists j | 0 <= j < |pairs| :: pairs[j] == (lem, f)
    decreases |pairs|
  {
    if pairs != [] {
      var n := |pairs| - 1;
      var init := pairs[..n];
      FormsOfElems(init, lem);
      assert forall j | 0 <= j < n :: init[j] == pairs[j];
      forall f | exists j | 0 <= j < |pairs| :: pairs[j] == (lem, f)
        ensures f in FormsOf(pairs, lem)
      {
        var j :| 0 <= j < |pairs| && pairs[j] == (lem, f);
        if j < n {
          assert init[j] == (lem, f);
        }
      }
    }
  }

  /** Reading the pairs in two batches (two XML files) gives each lemma the forms of the
      first batch followed by those of the second. */
  lemma {:induction false} FormsOfAppend(a: seq<(string, string)>, b: seq<(string, string)>, lem: string)
    ensures FormsOf(a + b, lem) == FormsOf(a, lem) + FormsOf(b, lem)
    decreases |b|
  {
    if b == [] {
      assert a + b == a;
    } else {
      var n := |b| - 1;
      assert (a + b)[..|a + b| - 1] == a + b[..n];
      FormsOfAppend(a, b[..n], lem);
    }
  }

  // ---------------------------------------------------------------------------------
  // reverse_json_writer: inverting the forward map

  /** The forms listed anywhere in the map. */
  function AllForms(data: map<string, seq<string>>): set<string> {
    set lem, form | lem in data && form in data[lem] :: form
  }

  /** The lemmas among `keys` whose list holds `form`. */
  function Holders(data: map<string, seq<string>>, keys: set<string>, form: string): set<string>
    requires keys <= data.Keys
  {
    set lem | lem in keys && form in data[lem]
  }

  /** Visiting one more lemma adds it to the holders of exactly the forms it lists. */
  lemma HoldersAdd(data: map<string, seq<string>>, keys: set<string>, lem: string, form: string)
    requires keys <= data.Keys && lem in data
    ensures Holders(data, keys + {lem}, form) ==
            Holders(data, keys, form) + (if form in data[lem] then {lem} else {})
  {
  }

  /** output is an inversion of data: its keys are exactly the forms data lists, each form
      maps to a non-empty, repeat-free list, and a lemma is in that list exactly when the
      lemma lists the form. */
  ghost predicate IsReverseOf(output: map<string, seq<string>>, data: map<string, seq<string>>) {
    && output.Keys == AllForms(data)
    && (forall form | form in output ::
          forall lem :: lem in output[form] <==> lem in data && form in data[lem])
    && (forall form | form in output ::
          && output[form] != []
          && forall i, j | 0 <= i < j < |output[form]| :: output[form][i] != output[form][j])
  }

  /** The first half of reverse_json_writer: the map from each listed form to the set of
      lemmas that list it, filled lemma by lemma. */
  method LemmasByForm(data: map<string, seq<string>>) returns (search: map<string, set<string>>)
    ensures forall form :: form in search <==> Holders(data, data.Keys, form) != {}
    ensures forall form | form in search :: search[form] == Holders(data, data.Keys, form)
  {
    search := map[];
    var todo := data.Keys;
    while todo != {}
      invariant todo <= data.Keys
      invariant forall form :: form in search <==> Holders(data, data.Keys - todo, form) != {}
      invariant forall form | form in search :: search[form] == Holders(data, data.Keys - todo, form)
      decreases todo
    {
      var lem :| lem in todo;
      var forms := data[lem];
      ghost var done := data.Keys - todo;
      for j := 0 to |forms|
        invariant forall form :: form in search <==> Holders(data, done, form) != {} || form in forms[..j]
        invariant forall form | form in search ::
                    search[form] == Holders(data, done, form) + (if form in forms[..j] then {lem} else {})
      {
        var form := forms[j];
        assert forms[..j + 1] == forms[..j] + [form];
        if form !in search {
          search := search[form := {lem}];
        } else {
          search := search[form := search[form] + {lem}];
        }
      }
      assert forms[..|forms|] == forms;
      todo := todo - {lem};
      assert data.Keys - todo == done + {lem};
      forall form ensures Holders(data, data.Keys - todo, form) ==
                          Holders(data, done, form) + (if form in forms then {lem} else {}) {
        HoldersAdd(data, done, lem, form);
      }
    }
    assert data.Keys - todo == data.Keys;
  }

  /** reverse_json_writer: the form-to-lemmas map of a lemma-to-forms map; each list comes
      from a set, so its order is left open. */
  method ReverseJsonWriter(data: map<string, seq<string>>) returns (output: map<string, seq<string>>)
    ensures IsReverseOf(output, data)
  {
    var search := LemmasByForm(data);

    // each set of lemmas becomes a list
    output := map[];
    var rest := search.Keys;
    while rest != {}
      invariant rest <= search.Keys
      invariant output.Keys == search.Keys - rest
      invariant forall form | form in output ::
                  && multiset(output[form]) == multiset(search[form])
                  && forall i, j | 0 <= i < j < |output[form]| :: output[form][i] != output[form][j]
      decreases rest
    {
      var form :| form in rest;
      var lems := SetToSeq(search[form]);
      output := output[form := lems];
      rest := rest - {form};
    }

    forall form ensures form in output <==> form in AllForms(data) {
      if form in AllForms(data) {
        var l :| l in data && form in data[l];
        assert l in Holders(data, data.Keys, form);
      }
    }
    forall form | form in output
      ensures forall lem :: lem in output[form] <==> lem in data && form in data[lem]
      ensures output[form] != []
    {
      forall lem ensures lem in output[form] <==> lem in search[form] {
        assert lem in output[form] <==> lem in multiset(output[form]);
      }
    }
  }

  /** The forward map with each list read as a set, lemmas without forms left out. */
  function FormSets(data: map<string, seq<string>>): map<string, set<string>> {
    map lem | lem in data && data[lem] != [] :: set form | form in data[lem]
  }

  /** Inverting the reverse map again gives back, for every lemma that has forms, the set
      of its forms: the inversion loses only order, repeats and lemmas without forms. */
  lemma ReverseTwice(output: map<string, seq<string>>, data: map<string, seq<string>>)
    requires IsReverseOf(output, data)
    ensures FormSets(data) == (map lem | lem in AllForms(output) ::
                                 set form | form in output && lem in output[form])
  {
    var back := map lem | lem in AllForms(output) ::
                  set form | form in output && lem in output[form];
    forall lem ensures lem in back <==> lem in FormSets(data) {
      if lem in FormSets(data) {
        var form := data[lem][0];
        assert form in data[lem];
        assert form in AllForms(data);
        assert lem in output[form];
      }
    }
    forall lem | lem in back ensures back[lem] == FormSets(data)[lem] {
      forall form ensures form in back[lem] <==> form in data[lem] {
        if form in data[lem] {
          assert form in AllForms(data);
        }
      }
    }
  }

  /** Collecting the pairs and inverting the result: a form maps to a lemma exactly when
      the pair (lemma, form) was read. */
  lemma ReverseOfCollected(pairs: seq<(string, string)>, data: map<string, seq<string>>,
                           output: map<string, seq<string>>, lem: string, form: string)
    requires forall l :: l in data <==> FormsOf(pairs, l) != []
    requires forall l | l in data :: data[l] == FormsOf(pairs, l)
    requires IsReverseOf(output, data)
    ensures form in output && lem in output[form] <==>
            exists j | 0 <= j < |pairs| :: pairs[j] == (lem, form)
  {
    FormsOfMembers(pairs, lem);
    if exists j | 0 <= j < |pairs| :: pairs[j] == (lem, form) {
      assert form in FormsOf(pairs, lem);
      assert form in AllForms(data);
    }
  }
}
