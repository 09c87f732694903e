/** What the assembler reports of an id depends on the rows of that id alone, whatever rows lie between them. */
module ProfileOwnRows {
  import opened ByteStrings
  import opened ProfileAssembly
  import opened ProfileKeys
  import opened ProfileRuns
  import opened Wrappers

  /** The rows of an id, in order. */
  function OwnRows(rows: seq<Row>, id: Id): seq<Row> {
    if rows == [] then []
    else
      var n := |rows| - 1;
      var init := OwnRows(rows[..n], id);
      if Own(rows, n, id) then init + [rows[n]] else init
  }

  /** The outcomes of an id, in order. */
  function OutcomesFor(outputs: seq<Output>, id: Id): seq<Output> {
    if outputs == [] then []
    else
      var n := |outputs| - 1;
      var init := OutcomesFor(outputs[..n], id);
      if outputs[n].assembled.id == id then init + [outputs[n]] else init
  }

  lemma OutcomesForNext(outputs: seq<Output>, o: Output, id: Id)
    ensures OutcomesFor(outputs + [o], id)
         == if o.assembled.id == id then OutcomesFor(outputs, id) + [o] else OutcomesFor(outputs, id)
  {
    assert (outputs + [o])[..|outputs|] == outputs;
  }

  /** Replacing an outcome of an id replaces it among the outcomes of that id, and changes no others. */
  lemma {:induction false} OutcomesForReplaced(outputs: seq<Output>, i: nat, o: Output, id: Id)
    requires i < |outputs| && o.assembled.id == outputs[i].assembled.id
    ensures var own := OutcomesFor(outputs, id);
            var rank := |OutcomesFor(outputs[..i], id)|;
            && (o.assembled.id == id ==>
                  rank < |own| && own[rank] == outputs[i] && OutcomesFor(outputs[i := o], id) == own[rank := o])
            && (o.assembled.id != id ==> OutcomesFor(outputs[i := o], id) == own)
  {
    var n := |outputs| - 1;
    if i < n {
      assert outputs[i := o][..n] == outputs[..n][i := o];
      assert outputs[..n][..i] == outputs[..i];
      OutcomesForReplaced(outputs[..n], i, o, id);
    } else {
      assert outputs[i := o][..n] == outputs[..n];
    }
  }

  /** A state over all rows and a state over the rows of one id agree on that id. */
  ghost predicate Agree(st: State, own: State, id: Id) {
    && BrokenAreReported(st)
    && OutcomesFor(st.outputs, id) == own.outputs
    && (id in st.partials <==> id in own.partials)
    && (id in st.partials ==> st.partials[id] == own.partials[id])
    && (id in st.broken <==> id in own.broken)
    && (id in st.broken ==> own.broken[id] == |OutcomesFor(st.outputs[..st.broken[id]], id)|)
  }

  lemma AppendedAgrees(st: State, own: State, id: Id, o: Output)
    requires Agree(st, own, id)
    ensures Agree(st.(outputs := st.outputs + [o]),
                  if o.assembled.id == id then own.(outputs := own.outputs + [o]) else own, id)
  {
    hide OutcomesFor;
    OutcomesForNext(st.outputs, o, id);
    if id in st.broken {
      assert (st.outputs + [o])[..st.broken[id]] == st.outputs[..st.broken[id]];
    }
  }

  lemma ReportedAgrees(st: State, own: State, id: Id, firstKey: bytes, stamp: Versionstamp, of: Id, key: bytes)
    requires Agree(st, own, id) && of !in st.partials
    ensures Agree(Reported(st, firstKey, stamp, of, key),
                  if of == id then Reported(own, firstKey, stamp, id, key) else own, id)
  {
    hide OutcomesFor;
    var o := Output(firstKey, key, Broken(stamp, of));
    if of in st.broken {
      var i := st.broken[of];
      var later := st.outputs[i].(lastKey := key);
      OutcomesForReplaced(st.outputs, i, later, id);
      if of == id {
        assert st.outputs[i := later][..i] == st.outputs[..i];
      } else if id in st.broken {
        var b := st.broken[id];
        if i < b {
          assert st.outputs[i := later][..b] == st.outputs[..b][i := later];
          OutcomesForReplaced(st.outputs[..b], i, later, id);
        } else {
          assert st.outputs[i := later][..b] == st.outputs[..b];
        }
      }
    } else {
      OutcomesForNext(st.outputs, o, id);
      assert (st.outputs + [o])[..|st.outputs|] == st.outputs;
      if id in st.broken {
        assert (st.outputs + [o])[..st.broken[id]] == st.outputs[..st.broken[id]];
      }
    }
  }

  lemma StartedAgrees(st: State, own: State, id: Id, c: ChunkKey, key: bytes, value: bytes)
    requires Agree(st, own, id) && c.id !in st.partials
    ensures Agree(Started(st, c, key, value), if c.id == id then Started(own, c, key, value) else own, id)
  {
    hide OutcomesFor, Reported;
    var whole := Output(key, key, Complete(c.versionstamp, c.id, value));
    if c.chunk == 1 && c.total >= 1 {
      var st', own' := st.(broken := st.broken - {c.id}),
                       if c.id == id then own.(broken := own.broken - {c.id}) else own;
      assert Agree(st', own', id);
      if c.total == 1 {
        AppendedAgrees(st', own', id, whole);
      }
    } else {
      ReportedAgrees(st, own, id, key, c.versionstamp, c.id, key);
    }
  }

  lemma ProcessedAgrees(st: State, own: State, id: Id, c: ChunkKey, key: bytes, value: bytes)
    requires Agree(st, own, id)
    ensures Agree(Processed(st, c, key, value), if c.id == id then Processed(own, c, key, value) else own, id)
  {
    hide OutcomesFor, Reported, Started, Continues;
    if c.id in st.partials {
      var p := st.partials[c.id];
      var st', own' := st.(partials := st.partials - {c.id}),
                       if c.id == id then own.(partials := own.partials - {c.id}) else own;
      assert Agree(st', own', id);
      if Continues(p, c) {
        AppendedAgrees(st', own', id, Output(p.firstKey, key, Complete(p.versionstamp, c.id, p.blob + value)));
      } else {
        ReportedAgrees(st', own', id, p.firstKey, p.versionstamp, c.id, key);
        ReportedKeeps(st', p.firstKey, p.versionstamp, c.id, key);
        var st'' := Reported(st', p.firstKey, p.versionstamp, c.id, key);
        var own'' := if c.id == id then Reported(own', p.firstKey, p.versionstamp, id, key) else own';
        StartedAgrees(st'', own'', id, c, key, value);
      }
    } else {
      StartedAgrees(st, own, id, c, key, value);
    }
  }

  lemma PushedAgrees(st: State, own: State, id: Id, row: Row)
    requires Agree(st, own, id)
    ensures Agree(Pushed(st, row), if Own([row], 0, id) then Pushed(own, row) else own, id)
  {
    hide OutcomesFor, Processed, ParseChunkKey;
    var last := Some(row.key);
    match ParseChunkKey(row.key)
    case None =>
    case Some(c) =>
      ProcessedAgrees(st.(lastKey := last), if c.id == id then own.(lastKey := last) else own, id, c,
                      row.key, row.value);
  }

  /** Feeding all rows and feeding the rows of one id give the same outcomes of that id, broken and complete. */
  lemma {:induction false} OutcomesDependOnOwnRows(rows: seq<Row>, id: Id)
    ensures var own := OwnRows(rows, id);
            && Agree(Fed(rows, 0, |rows|), Fed(own, 0, |own|), id)
            && OutcomesFor(Fed(rows, 0, |rows|).outputs, id) == Fed(own, 0, |own|).outputs
  {
    hide Pushed, ParseChunkKey, Agree, OutcomesFor;
    if rows == [] {
      NothingAgrees(id);
    } else {
      var n := |rows| - 1;
      var init := OwnRows(rows[..n], id);
      OutcomesDependOnOwnRows(rows[..n], id);
      FirstRows(rows[..n], rows);
      FirstRows(init, OwnRows(rows, id));
      PushedAgrees(Fed(rows, 0, n), Fed(init, 0, |init|), id, rows[n]);
    }
    AgreeOutcomes(Fed(rows, 0, |rows|), Fed(OwnRows(rows, id), 0, |OwnRows(rows, id)|), id);
  }

  lemma NothingAgrees(id: Id)
    ensures Agree(EMPTY, EMPTY, id)
  {
  }

  lemma AgreeOutcomes(st: State, own: State, id: Id)
    requires Agree(st, own, id)
    ensures OutcomesFor(st.outputs, id) == own.outputs
  {
  }
}
