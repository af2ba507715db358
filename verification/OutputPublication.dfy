/**
 Publishing a report under a name that must not exist yet: write a private temporary,
 link it to the final name, drop the temporary, with a check after each stage. Any step
 may fail, before or after taking effect, and other processes may rebind every name
 but the private one between any two steps.
 */
module OutputPublication {
  import opened Basics

  type Name = string
  type Inode = nat
  type Bytes = seq<int>

  datatype Fault = Works | FailsBefore | FailsAfter

  /** How others leave the directory, and the contents of inodes that are not ours. */
  datatype World = World(names: map<Name, Inode>, data: map<Inode, Bytes>)

  /** What the outside world does at one step of the call. */
  datatype Turn = Turn(
    fault: Fault,
    others: Option<World>,      // whether and what others do before the step
    inode: Inode,               // the inode number a create would get
    written: int)               // how many bytes a write would take

  /** The answer of one step: it worked, found the name taken, found it missing, or raised another error. */
  datatype Raised = Fine | FileExists | Missing | OtherError

  datatype Outcome =
    | Returned
    | DirectoryChanged        // refused before anything was touched
    | RefusedOverwrite
    | RetryableNoFinalLink
    | TerminalAmbiguous
    | Unclassified            // closing the descriptor failed: an error without a publication state

  /** A change this call itself made to the directory. */
  datatype Effect =
    | Bound(name: Name, inode: Inode, replaced: bool)
    | Unbound(name: Name)

  function Links(names: map<Name, Inode>, inode: Inode): set<Name> {
    set n | n in names && names[n] == inode
  }

  /** Everything this call did so far: it replaced nothing and removed nothing but its temporary. */
  ghost predicate Harmless(own: seq<Effect>, temporary: Name, final: Name) {
    forall i :: 0 <= i < |own| ==>
      match own[i]
      case Bound(name, _, replaced) => !replaced && (name == temporary || name == final)
      case Unbound(name) => name == temporary
  }

  ghost predicate MadeTemporary(own: seq<Effect>, temporary: Name) {
    exists i :: 0 <= i < |own| && own[i].Bound? && own[i].name == temporary
  }

  ghost predicate LinkedFinal(own: seq<Effect>, final: Name) {
    exists i :: 0 <= i < |own| && own[i].Bound? && own[i].name == final
  }

  /** In the steps from `first` up to `last` nobody else acts. */
  ghost predicate Alone(script: nat -> Turn, first: nat, last: nat) {
    forall k :: first <= k < last ==> script(k).others == None
  }

  /** In the steps from `first` up to `last` nothing fails and nobody else acts. */
  ghost predicate Progress(script: nat -> Turn, first: nat, last: nat) {
    forall k :: first <= k < last ==> script(k).fault == Works && script(k).others == None && script(k).written > 0
  }

  /** And a create gets an unused inode. */
  ghost predicate Calm(script: nat -> Turn, first: nat, last: nat, data: map<Inode, Bytes>) {
    Progress(script, first, last) && forall k :: first <= k < last ==> script(k).inode !in data
  }

  /** Each write takes everything, */
  ghost predicate WholeWrites(script: nat -> Turn, payload: Bytes) {
    forall k :: script(k).written >= |payload|
  }

  /** so this many are needed. */
  function Writes(payload: Bytes): nat { if payload == [] then 0 else 1 }

  /** Every name refers to an inode with contents. */
  ghost predicate Tidy(names: map<Name, Inode>, data: map<Inode, Bytes>) {
    forall n :: n in names ==> names[n] in data
  }

  class Directory {
    var names: map<Name, Inode>
    var data: map<Inode, Bytes>
    var clock: nat              // steps taken, the index into the script

    constructor (names: map<Name, Inode>, data: map<Inode, Bytes>)
      ensures this.names == names && this.data == data && clock == 0
    {
      this.names := names;
      this.data := data;
      clock := 0;
    }

    /** Others act: any name but the private one, any inode but ours. */
    method Others(script: nat -> Turn, private: Name, mine: set<Inode>) returns (turn: Turn)
      modifies this
      ensures clock == old(clock) + 1 && turn == script(old(clock))
      ensures private in names <==> private in old(names)
      ensures private in names ==> names[private] == old(names)[private]
      ensures forall i :: i in mine && i in old(data) ==> i in data && data[i] == old(data)[i]
      ensures turn.others == None ==> names == old(names) && data == old(data)
    {
      turn := script(clock);
      clock := clock + 1;
      if turn.others.Some? {
        var world := turn.others.value;
        names := if private in names then world.names[private := names[private]] else world.names - {private};
        data := world.data + map i | i in data && i in mine :: data[i];
      }
    }

    /** Exclusive creation of the private temporary. */
    method CreateExclusive(script: nat -> Turn, name: Name) returns (raised: Raised, inode: Inode, ghost own: seq<Effect>)
      modifies this
      ensures raised == Fine ==> name in names && names[name] == inode && inode in data && data[inode] == []
      ensures forall i :: 0 <= i < |own| ==> own[i].Bound? && own[i].name == name && !own[i].replaced
      ensures raised == Fine ==> own == [Bound(name, inode, false)]
      ensures clock == old(clock) + 1
      ensures Alone(script, old(clock), clock) ==>
                && (raised == FileExists ==> name in old(names))
                && forall n :: n != name ==> (n in names <==> n in old(names))
      ensures Calm(script, old(clock), clock, old(data)) && name !in old(names) ==>
                raised == Fine && names == old(names)[name := inode] && inode !in old(data) && data == old(data)[inode := []]
    {
      own := [];
      var turn := Others(script, name, {});
      inode := turn.inode;
      if name in names { return FileExists, inode, own; }
      if turn.fault == FailsBefore || inode in data { return OtherError, inode, own; }
      own := [Bound(name, inode, name in names)];
      names := names[name := inode];
      data := data[inode := []];
      raised := if turn.fault == Works then Fine else OtherError;
    }

    /** The write loop: the kernel takes any positive number of bytes at a time. */
    method WriteAll(script: nat -> Turn, private: Name, inode: Inode, payload: Bytes) returns (raised: Raised)
      requires private in names && names[private] == inode && inode in data && data[inode] == []
      modifies this
      ensures private in names && names[private] == inode && inode in data
      ensures raised == Fine ==> data[inode] == payload
      ensures raised != FileExists
      ensures clock >= old(clock)
      ensures Alone(script, old(clock), clock) ==> names == old(names)
      ensures WholeWrites(script, payload) ==>
                clock <= old(clock) + Writes(payload) && (raised == Fine ==> clock == old(clock) + Writes(payload))
      ensures Progress(script, old(clock), clock) ==>
                raised == Fine && names == old(names) && data == old(data)[inode := payload]
    {
      var offset := 0;
      while offset < |payload|
        invariant 0 <= offset <= |payload|
        invariant private in names && names[private] == inode && inode in data && data[inode] == payload[..offset]
        invariant clock >= old(clock)
        invariant Alone(script, old(clock), clock) ==> names == old(names)
        invariant WholeWrites(script, payload) ==>
                    (offset == 0 || offset == |payload|) && clock == old(clock) + if offset == 0 then 0 else 1
        invariant Progress(script, old(clock), clock) ==> names == old(names) && data == old(data)[inode := payload[..offset]]
        decreases |payload| - offset
      {
        var turn := Others(script, private, {inode});
        if turn.fault == FailsBefore || turn.written <= 0 { return OtherError; }
        var count := if turn.written < |payload| - offset then turn.written else |payload| - offset;
        data := data[inode := data[inode] + payload[offset..offset + count]];
        offset := offset + count;
        assert data[inode] == payload[..offset];
        if turn.fault == FailsAfter { return OtherError; }
      }
      raised := Fine;
    }

    /** A step that changes no name: fsync, fchmod, fstat, or re-checking the directory. */
    method Quiet(script: nat -> Turn, private: Name, mine: set<Inode>) returns (raised: Raised)
      modifies this
      ensures private in names <==> private in old(names)
      ensures private in names ==> names[private] == old(names)[private]
      ensures forall i :: i in mine && i in old(data) ==> i in data && data[i] == old(data)[i]
      ensures raised != FileExists
      ensures clock == old(clock) + 1
      ensures Alone(script, old(clock), clock) ==> names == old(names)
      ensures raised == Fine <==> script(old(clock)).fault == Works
      ensures Progress(script, old(clock), clock) ==> raised == Fine && names == old(names) && data == old(data)
    {
      var turn := Others(script, private, mine);
      raised := if turn.fault == Works then Fine else OtherError;
    }

    /** Bytes and link count of the retained inode, and the binding of the final name when asked. */
    method Validate(script: nat -> Turn, private: Name, inode: Inode, payload: Bytes, links: nat, final: Name, published: bool)
      returns (raised: Raised)
      modifies this
      ensures private in names <==> private in old(names)
      ensures private in names ==> names[private] == old(names)[private]
      ensures inode in old(data) ==> inode in data && data[inode] == old(data)[inode]
      ensures raised != FileExists
      ensures raised == Fine ==> inode in data && data[inode] == payload && |Links(names, inode)| == links
      ensures raised == Fine && published ==> final in names && names[final] == inode
      ensures clock == old(clock) + 1
      ensures Alone(script, old(clock), clock) ==> names == old(names)
      ensures Progress(script, old(clock), clock) ==> names == old(names) && data == old(data)
      ensures (Progress(script, old(clock), clock) && inode in old(data) && old(data)[inode] == payload
               && |Links(old(names), inode)| == links
               && (published ==> final in old(names) && old(names)[final] == inode)) ==> raised == Fine
    {
      var turn := Others(script, private, {inode});
      if turn.fault != Works || inode !in data || data[inode] != payload || |Links(names, inode)| != links
         || (published && (final !in names || names[final] != inode)) {
        return OtherError;
      }
      raised := Fine;
    }

    /** Hard link of the temporary to the final name: it never replaces a name. */
    method Link(script: nat -> Turn, private: Name, inode: Inode, final: Name)
      returns (raised: Raised, ghost own: seq<Effect>)
      requires private in names && names[private] == inode && private != final && inode in data
      modifies this
      ensures private in names && names[private] == inode && inode in data && data[inode] == old(data)[inode]
      ensures raised == FileExists ==> own == []
      ensures raised == Fine ==> own == [Bound(final, inode, false)]
      ensures own == [] || own == [Bound(final, inode, false)]
      ensures clock == old(clock) + 1
      ensures Alone(script, old(clock), clock) ==> (raised == FileExists ==> final in old(names))
      ensures Progress(script, old(clock), clock) ==> data == old(data)
      ensures Progress(script, old(clock), clock) ==>
                if final in old(names) then raised == FileExists && names == old(names)
                else raised == Fine && names == old(names)[final := inode]
    {
      own := [];
      var turn := Others(script, private, {inode});
      if final in names { return FileExists, own; }
      if turn.fault == FailsBefore { return OtherError, own; }
      own := [Bound(final, inode, final in names)];
      names := names[final := inode];
      raised := if turn.fault == Works then Fine else OtherError;
    }

    method Unlink(script: nat -> Turn, private: Name, mine: set<Inode>) returns (raised: Raised, ghost own: seq<Effect>)
      modifies this
      ensures raised == Fine ==> private !in names
      ensures raised != FileExists
      ensures forall i :: i in mine && i in old(data) ==> i in data && data[i] == old(data)[i]
      ensures own == [] || own == [Unbound(private)]
      ensures clock == old(clock) + 1
      ensures Progress(script, old(clock), clock) && private in old(names) ==>
                raised == Fine && names == old(names) - {private} && data == old(data)
    {
      own := [];
      var turn := Others(script, private, mine);
      if private !in names { return Missing, own; }
      if turn.fault == FailsBefore { return OtherError, own; }
      own := [Unbound(private)];
      names := names - {private};
      raised := if turn.fault == Works then Fine else OtherError;
    }

    /** Create the temporary and write it; `exists'` is the flag the cleanup relies on. */
    method Fill(script: nat -> Turn, temporary: Name, final: Name, payload: Bytes)
      returns (raised: Raised, exists': bool, inode: Inode, ghost own: seq<Effect>)
      requires temporary != final
      modifies this
      ensures Harmless(own, temporary, final) && !LinkedFinal(own, final)
      ensures raised == Fine ==> exists' && temporary in names && names[temporary] == inode && inode in data
      ensures raised == Fine ==> MadeTemporary(own, temporary)
      ensures clock > old(clock)
      ensures Alone(script, old(clock), clock) ==>
                && (raised == FileExists ==> temporary in old(names))
                && (final in names <==> final in old(names))
      ensures WholeWrites(script, payload) ==>
                clock <= old(clock) + 2 + Writes(payload) && (raised == Fine ==> clock == old(clock) + 2 + Writes(payload))
      ensures Calm(script, old(clock), clock, old(data)) && temporary !in old(names) ==>
                && raised == Fine && names == old(names)[temporary := inode]
                && inode !in old(data) && data == old(data)[inode := payload]
    {
      exists' := false;
      raised, inode, own := CreateExclusive(script, temporary);
      if raised != Fine { return; }
      assert own[0].Bound? && own[0].name == temporary;
      exists' := true;
      raised := Quiet(script, temporary, {inode});                    // fchmod
      if raised != Fine { return; }
      raised := WriteAll(script, temporary, inode, payload);
    }

    /** Sync and check the temporary and the directory. */
    method Settle(script: nat -> Turn, temporary: Name, final: Name, inode: Inode, payload: Bytes) returns (raised: Raised)
      requires temporary in names && names[temporary] == inode && inode in data
      modifies this
      ensures temporary in names && names[temporary] == inode && inode in data && raised != FileExists
      ensures Alone(script, old(clock), clock) ==> (final in names <==> final in old(names))
      ensures old(clock) < clock <= old(clock) + 3 && (raised == Fine ==> clock == old(clock) + 3)
      ensures (Progress(script, old(clock), clock) && old(data)[inode] == payload && |Links(old(names), inode)| == 1) ==>
                raised == Fine && names == old(names) && data == old(data)
    {
      raised := Quiet(script, temporary, {inode});                    // fsync and fstat
      if raised != Fine { return; }
      raised := Validate(script, temporary, inode, payload, 1, final, false);
      if raised != Fine { return; }
      raised := Quiet(script, temporary, {inode});                    // the directory again
    }

    method Prepare(script: nat -> Turn, temporary: Name, final: Name, payload: Bytes)
      returns (raised: Raised, exists': bool, inode: Inode, ghost own: seq<Effect>)
      requires temporary != final
      modifies this
      ensures Harmless(own, temporary, final) && !LinkedFinal(own, final)
      ensures raised == Fine ==> exists' && temporary in names && names[temporary] == inode && inode in data
      ensures raised == Fine ==> MadeTemporary(own, temporary)
      ensures clock > old(clock)
      ensures Alone(script, old(clock), clock) ==>
                && (raised == FileExists ==> temporary in old(names))
                && (final in names <==> final in old(names))
      ensures WholeWrites(script, payload) ==>
                clock <= old(clock) + 5 + Writes(payload) && (raised == Fine ==> clock == old(clock) + 5 + Writes(payload))
      ensures Calm(script, old(clock), clock, old(data)) && Tidy(old(names), old(data)) && temporary !in old(names) ==>
                && raised == Fine && names == old(names)[temporary := inode]
                && inode !in old(data) && data == old(data)[inode := payload]
    {
      raised, exists', inode, own := Fill(script, temporary, final, payload);
      if raised != Fine { return; }
      ghost var filled := clock;
      if Calm(script, old(clock), filled, old(data)) && Tidy(old(names), old(data)) && temporary !in old(names) {
        LinksAdded(old(names), temporary, inode);
      }
      raised := Settle(script, temporary, final, inode, payload);
    }

    /** Link, check, drop the temporary, check. */
    method Publish(script: nat -> Turn, temporary: Name, final: Name, inode: Inode, payload: Bytes)
      returns (raised: Raised, exists': bool, ghost own: seq<Effect>)
      requires temporary != final && temporary in names && names[temporary] == inode && inode in data
      modifies this
      ensures Harmless(own, temporary, final)
      ensures raised == FileExists ==> !LinkedFinal(own, final)
      ensures raised == Fine ==>
        && !exists' && LinkedFinal(own, final) && temporary !in names
        && final in names && names[final] == inode && inode in data && data[inode] == payload
        && Links(names, inode) == {final}
      ensures Alone(script, old(clock), clock) ==> (raised == FileExists ==> final in old(names))
      ensures old(clock) < clock <= old(clock) + 5 && (raised == Fine ==> clock == old(clock) + 5)
      ensures Progress(script, old(clock), clock) && old(data)[inode] == payload && Links(old(names), inode) == {temporary} ==>
                if final in old(names) then raised == FileExists && exists' && names == old(names) && data == old(data)
                else raised == Fine && names == old(names)[final := inode] - {temporary} && data == old(data)
    {
      exists' := true;
      raised, own := Link(script, temporary, inode, final);
      if raised != Fine { return; }
      assert own[0] == Bound(final, inode, false);
      if Links(old(names), inode) == {temporary} && final !in old(names) {
        LinksAfter(old(names), temporary, final, inode);
      }
      raised := Validate(script, temporary, inode, payload, 2, final, true);
      if raised != Fine { return; }
      ghost var dropped;
      raised, dropped := Unlink(script, temporary, {inode});
      own := own + dropped;
      assert own[0].Bound? && own[0].name == final;
      if raised != Fine { return; }
      exists' := false;
      raised := Quiet(script, temporary, {inode});                    // fsync of the directory
      if raised != Fine { return; }
      raised := Validate(script, temporary, inode, payload, 1, final, true);
      if raised == Fine { OnlyLink(names, inode, final); }
    }

    method RemoveTemporary(script: nat -> Turn, temporary: Name, exists': bool) returns (still: bool, ghost own: seq<Effect>)
      modifies this
      ensures own == [] || own == [Unbound(temporary)]
      ensures !exists' ==> !still && own == [] && names == old(names) && data == old(data)
      ensures clock >= old(clock)
      ensures exists' && Progress(script, old(clock), clock) && temporary in old(names) ==>
                !still && names == old(names) - {temporary} && data == old(data)
    {
      still := exists';
      own := [];
      if exists' {
        var raised;
        raised, own := Unlink(script, temporary, {});
        still := raised == OtherError;
        if raised == Fine { raised := Quiet(script, temporary, {}); }    // fsync of the directory; an error only adds a detail
      }
    }

    /** Closing the descriptor changes no name; what others do meanwhile counts as done after the call. */
    method Close(script: nat -> Turn) returns (raised: Raised)
      modifies this
      ensures names == old(names) && data == old(data) && clock == old(clock) + 1
      ensures raised == (if script(old(clock)).fault == Works then Fine else OtherError)
    {
      raised := if script(clock).fault == Works then Fine else OtherError;
      clock := clock + 1;
    }

    /** Everything up to the cleanup: `exists'` says whether there is a descriptor and a temporary believed to exist. */
    method Try(script: nat -> Turn, temporary: Name, final: Name, payload: Bytes)
      returns (raised: Raised, attempted: bool, held: bool, exists': bool, ghost own: seq<Effect>)
      requires temporary != final
      modifies this
      ensures Harmless(own, temporary, final)
      ensures raised == Fine ==> attempted && !exists' && LinkedFinal(own, final) && Holds(names, data, temporary, final, payload)
      ensures raised == FileExists || !attempted ==> !LinkedFinal(own, final)
      ensures attempted ==> held && MadeTemporary(own, temporary)
      ensures exists' ==> held
      ensures clock > old(clock)
      ensures Alone(script, old(clock), clock) && raised == FileExists ==> final in old(names) || temporary in old(names)
      ensures WholeWrites(script, payload) ==>
                clock <= old(clock) + 10 + Writes(payload) && (raised == Fine ==> clock == old(clock) + 10 + Writes(payload))
      ensures Calm(script, old(clock), clock, old(data)) && Tidy(old(names), old(data)) && temporary !in old(names) ==>
                if final in old(names)
                then raised == FileExists && held && exists' && temporary in names && names - {temporary} == old(names)
                else raised == Fine && names == old(names)[final := names[final]]
    {
      var inode;
      raised, exists', inode, own := Prepare(script, temporary, final, payload);
      held, attempted := exists', raised == Fine;
      if attempted {
        ghost var more, prepared := [], clock;
        if Calm(script, old(clock), prepared, old(data)) && Tidy(old(names), old(data)) && temporary !in old(names) {
          LinksAdded(old(names), temporary, inode);
        }
        raised, exists', more := Publish(script, temporary, final, inode, payload);
        Concatenated(own, more, temporary, final);
        own := own + more;
      }
    }

    /** Everything up to the close: the same, classified, with the temporary removed after a failure. */
    method Attempt(script: nat -> Turn, temporary: Name, final: Name, payload: Bytes)
      returns (judged: Outcome, held: bool, exists': bool, ghost own: seq<Effect>, ghost reached: bool)
      requires temporary != final
      modifies this
      ensures Harmless(own, temporary, final) && Judged(judged, own, reached, temporary, final)
      ensures exists' || reached ==> held
      ensures judged == Returned ==> !exists' && Holds(names, data, temporary, final, payload)
      ensures clock > old(clock) && (judged == DirectoryChanged ==> !held)
      ensures judged == DirectoryChanged <==> script(old(clock)).fault != Works
      ensures judged == DirectoryChanged ==> own == [] && !exists'
      ensures Alone(script, old(clock), clock) && judged == RefusedOverwrite ==> final in old(names) || temporary in old(names)
      ensures WholeWrites(script, payload) && judged == Returned ==> clock == old(clock) + 11 + Writes(payload)
      ensures (WholeWrites(script, payload) && final !in old(names) && Tidy(old(names), old(data)) && temporary !in old(names)
               && Calm(script, old(clock), old(clock) + 11 + Writes(payload), old(data))) ==> judged == Returned && held
      ensures Calm(script, old(clock), clock, old(data)) && Tidy(old(names), old(data)) && temporary !in old(names) ==>
                && held && judged == (if final in old(names) then RefusedOverwrite else Returned)
                && (if final in old(names) then exists' && temporary in names && names - {temporary} == old(names)
                    else names == old(names)[final := names[final]])
    {
      own, reached, held, exists' := [], false, false, false;
      var raised := Quiet(script, temporary, {});
      if raised != Fine { return DirectoryChanged, false, false, own, false; }
      var attempted;
      raised, attempted, held, exists', own := Try(script, temporary, final, payload);
      reached := attempted;
      judged := match raised
        case Fine => Returned
        case FileExists => RefusedOverwrite
        case _ => if attempted then TerminalAmbiguous else RetryableNoFinalLink;
      if raised != Fine && raised != FileExists {
        ghost var more;
        exists', more := RemoveTemporary(script, temporary, exists');
        Concatenated(own, more, temporary, final);
        own := own + more;
      }
    }

    /**
     The whole publication. Whatever fails and whatever others do: nothing is ever replaced and
     no final name is ever removed. `judged` is the outcome before the descriptor is closed, at
     step `closed`: success means the final name holds exactly the payload and is the only link to
     it; the refusals and the retryable failure mean this call made no final link; the directory is
     found changed exactly when the first check fails, before anything is touched; with nobody else
     at work a refusal to overwrite means that a name was taken beforehand; and every
     failure is terminal exactly when it came after the link was asked for. What the caller gets is
     that outcome, unless closing the descriptor failed: then it is an error without any of these
     states, whatever was published.
     */
    method WriteCanonicalAt(script: nat -> Turn, temporary: Name, final: Name, payload: Bytes)
      returns (outcome: Outcome, ghost judged: Outcome, ghost own: seq<Effect>, ghost reached: bool, ghost closed: Option<nat>)
      requires temporary != final
      modifies this
      ensures Harmless(own, temporary, final) && Judged(judged, own, reached, temporary, final)
      ensures judged == Returned ==> Holds(names, data, temporary, final, payload)
      ensures outcome == if closed.Some? && script(closed.value).fault != Works then Unclassified else judged
      ensures closed.None? ==> !reached && judged in {DirectoryChanged, RetryableNoFinalLink, RefusedOverwrite}
      ensures closed.Some? ==> old(clock) <= closed.value < clock
      ensures judged == DirectoryChanged <==> script(old(clock)).fault != Works
      ensures judged == DirectoryChanged ==> own == []
      ensures Alone(script, old(clock), clock) && judged == RefusedOverwrite ==> final in old(names) || temporary in old(names)
      ensures WholeWrites(script, payload) && final !in old(names) && Tidy(old(names), old(data)) && temporary !in old(names)
              && Calm(script, old(clock), old(clock) + 11 + Writes(payload), old(data)) ==>
                judged == Returned && closed == Some(old(clock) + 11 + Writes(payload))
      ensures Calm(script, old(clock), clock, old(data)) && Tidy(old(names), old(data)) && temporary !in old(names) ==>
        && outcome == judged == (if final in old(names) then RefusedOverwrite else Returned)
        && names == (if final in old(names) then old(names) else old(names)[final := names[final]])
    {
      var exists', held, verdict;
      verdict, held, exists', own, reached := Attempt(script, temporary, final, payload);
      outcome, judged, closed := verdict, verdict, None;
      if held {
        closed := Some(clock);
        var raised := Close(script);
        if raised != Fine { return Unclassified, judged, own, reached, closed; }
      }
      // Whatever happened, a temporary still believed to exist is removed, once more if need be.
      ghost var more;
      exists', more := RemoveTemporary(script, temporary, exists');
      Concatenated(own, more, temporary, final);
      own := own + more;
    }
  }

  /** What the outcomes before the close say about what this call did. */
  ghost predicate Judged(judged: Outcome, own: seq<Effect>, reached: bool, temporary: Name, final: Name) {
    && judged != Unclassified
    && (judged == Returned ==> LinkedFinal(own, final))
    && (judged in {DirectoryChanged, RefusedOverwrite, RetryableNoFinalLink} ==> !LinkedFinal(own, final))
    && (LinkedFinal(own, final) ==> reached && (judged == Returned || judged == TerminalAmbiguous))
    && (reached ==> MadeTemporary(own, temporary) && judged in {Returned, RefusedOverwrite, TerminalAmbiguous})
    && (judged == TerminalAmbiguous ==> reached)
  }

  /** The final name holds exactly the payload and is the only link to it; the temporary is gone. */
  ghost predicate Holds(names: map<Name, Inode>, data: map<Inode, Bytes>, temporary: Name, final: Name, payload: Bytes) {
    && final in names && names[final] in data && data[names[final]] == payload
    && Links(names, names[final]) == {final} && temporary !in names
  }

  /** A script in which only step `n` fails. */
  function FailingAt(n: nat, payload: Bytes): nat -> Turn {
    k => Turn(if k == n then FailsBefore else Works, None, 0, |payload| + 1)
  }

  /** A publication that is complete, and an error that says nothing of it: only closing the descriptor failed. */
  method UnclassifiedPublication(temporary: Name, final: Name, payload: Bytes)
    returns (directory: Directory, outcome: Outcome, ghost own: seq<Effect>)
    requires temporary != final
    ensures outcome == Unclassified && LinkedFinal(own, final)
    ensures Holds(directory.names, directory.data, temporary, final, payload)
  {
    directory := new Directory(map[], map[]);
    ghost var judged, reached, closed;
    outcome, judged, own, reached, closed :=
      directory.WriteCanonicalAt(FailingAt(11 + Writes(payload), payload), temporary, final, payload);
  }

  lemma LinksAdded(names: map<Name, Inode>, n: Name, inode: Inode)
    requires n !in names && inode !in names.Values
    ensures Links(names[n := inode], inode) == {n}
  {
  }

  lemma LinksAfter(names: map<Name, Inode>, temporary: Name, final: Name, inode: Inode)
    requires Links(names, inode) == {temporary} && final !in names
    ensures Links(names[final := inode], inode) == {temporary, final}
    ensures |Links(names[final := inode], inode)| == 2
    ensures Links(names[final := inode] - {temporary}, inode) == {final}
  {
    assert temporary in Links(names, inode);
    assert forall n :: n in names && names[n] == inode ==> n in Links(names, inode);
    assert Links(names[final := inode], inode) == Links(names, inode) + {final};
    assert temporary != final;
  }

  lemma OnlyLink(names: map<Name, Inode>, inode: Inode, final: Name)
    requires |Links(names, inode)| == 1 && final in names && names[final] == inode
    ensures Links(names, inode) == {final}
  {
    var rest := Links(names, inode) - {final};
    assert |rest| == 0;
    assert Links(names, inode) == rest + {final};
  }

  lemma Concatenated(a: seq<Effect>, b: seq<Effect>, temporary: Name, final: Name)
    requires Harmless(a, temporary, final) && Harmless(b, temporary, final)
    ensures Harmless(a + b, temporary, final)
    ensures LinkedFinal(a + b, final) <==> LinkedFinal(a, final) || LinkedFinal(b, final)
    ensures MadeTemporary(a, temporary) ==> MadeTemporary(a + b, temporary)
  {
    if i :| 0 <= i < |a| && a[i].Bound? && a[i].name == temporary {
      assert (a + b)[i] == a[i];
    }
    if LinkedFinal(a, final) {
      var i :| 0 <= i < |a| && a[i].Bound? && a[i].name == final;
      assert (a + b)[i] == a[i];
    }
    if LinkedFinal(b, final) {
      var i :| 0 <= i < |b| && b[i].Bound? && b[i].name == final;
      assert (a + b)[|a| + i] == b[i];
    }
  }
}
