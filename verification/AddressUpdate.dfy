/** Publishing revised files one rename at a time, with rollback, under any pattern of failing
    file operations. */
module AddressUpdate {
  import opened Registry
  import opened Strings
  import opened AddressText

  const NAMES := ["pjsip.conf", "lab.env", "compose.env", "linphone-account.txt"]

  /** A staged copy: the original kept for rollback, or the revision to publish. */
  datatype Staged = Old(name: string) | New(name: string)

  datatype Outcome =
    | Updated | Unchanged
    /** `retained` says whether the staging directory with the originals was kept. */
    | Failed(retained: bool)

  predicate Readable(files: map<string, Text>) { forall i :: 0 <= i < |NAMES| ==> NAMES[i] in files }

  function Read(files: map<string, Text>): Files
    requires Readable(files)
  {
    assert NAMES[0] in files && NAMES[1] in files && NAMES[2] in files && NAMES[3] in files;
    Files(files[NAMES[0]], files[NAMES[1]], files[NAMES[2]], files[NAMES[3]])
  }

  /** The staged original of a file. */
  ghost predicate Backed(original: map<string, Text>, staging: map<Staged, Text>, n: string) {
    n in original && Old(n) in staging && staging[Old(n)] == original[n]
  }

  /** Every file holds its original, or its revision with the original still staged; nothing else in
      the directory moved. */
  ghost predicate Safe(original: map<string, Text>, files: map<string, Text>, revised: map<string, Text>,
                       staging: map<Staged, Text>) {
    && files.Keys == original.Keys
    && forall n :: n in files ==>
         files[n] == original[n] || (n in revised && files[n] == revised[n] && Backed(original, staging, n))
  }

  ghost predicate Ready(original: map<string, Text>, revised: map<string, Text>, staging: map<Staged, Text>,
                        n: string) {
    Backed(original, staging, n) && n in revised && New(n) in staging && staging[New(n)] == revised[n]
  }

  class Folder {
    var files: map<string, Text>
    /** The temporary directory, while it exists. */
    var staging: Option<map<Staged, Text>>
    /** File operations so far; operation `k` fails when `fails(k)`. */
    var clock: nat

    constructor (files: map<string, Text>)
      ensures this.files == files && staging == None && clock == 0
    {
      this.files := files;
      staging, clock := None, 0;
    }

    /** `os.replace` of a staged copy onto the file: all or nothing. */
    method Replace(from: Staged, fails: nat -> bool) returns (ok: bool)
      requires staging.Some? && from in staging.value
      modifies this
      ensures clock == old(clock) + 1 && ok == !fails(old(clock)) && staging.Some?
      ensures ok ==> files == old(files)[from.name := old(staging).value[from]]
      ensures ok ==> staging.value == old(staging).value - {from}
      ensures !ok ==> files == old(files) && staging == old(staging)
    {
      ok := !fails(clock);
      clock := clock + 1;
      if ok {
        files := files[from.name := staging.value[from]];
        staging := Some(staging.value - {from});
      }
    }

    /** Writes both copies of every changed file into the staging directory. */
    method Stage(changed: seq<string>, original: map<string, Text>, revised: map<string, Text>, fails: nat -> bool)
      returns (ok: bool)
      requires staging == Some(map[]) && forall n :: n in changed ==> n in original && n in revised
      modifies this`staging, this`clock
      ensures staging.Some?
      ensures ok ==> forall j :: 0 <= j < |changed| ==> Ready(original, revised, staging.value, changed[j])
      ensures !ok ==> exists k :: fails(k)
    {
      for i := 0 to |changed|
        invariant staging.Some?
        invariant forall j :: 0 <= j < i ==> Ready(original, revised, staging.value, changed[j])
      {
        var n := changed[i];
        if fails(clock) || fails(clock + 1) { return false; }
        clock := clock + 2;
        staging := Some(staging.value[Old(n) := original[n]][New(n) := revised[n]]);
      }
      return true;
    }

    /** Renames the revisions into place until one fails; the first `count` were published. */
    method Publish(changed: seq<string>, original: map<string, Text>, revised: map<string, Text>, fails: nat -> bool)
      returns (count: nat)
      requires staging.Some? && Distinct(changed) && files == original
      requires forall j :: 0 <= j < |changed| ==> Ready(original, revised, staging.value, changed[j])
      modifies this
      ensures staging.Some? && count <= |changed| && Safe(original, files, revised, staging.value)
      ensures forall j :: 0 <= j < |changed| ==> Backed(original, staging.value, changed[j])
      ensures forall j :: 0 <= j < count ==>
        changed[j] in files && changed[j] in revised && files[changed[j]] == revised[changed[j]]
      ensures forall n :: n in files && files[n] != original[n] ==> n in changed[..count]
      ensures count < |changed| ==> exists k :: fails(k)
    {
      count := 0;
      while count < |changed|
        invariant count <= |changed| && staging.Some? && Safe(original, files, revised, staging.value)
        invariant forall j :: 0 <= j < |changed| ==> Backed(original, staging.value, changed[j])
        invariant forall j :: count <= j < |changed| ==> Ready(original, revised, staging.value, changed[j])
        invariant forall j :: 0 <= j < count ==>
          changed[j] in files && changed[j] in revised && files[changed[j]] == revised[changed[j]]
        invariant forall n :: n in files && files[n] != original[n] ==> n in changed[..count]
      {
        assert Ready(original, revised, staging.value, changed[count]);
        var ok := Replace(New(changed[count]), fails);
        if !ok { return; }
        assert changed[..count + 1] == changed[..count] + [changed[count]];
        count := count + 1;
      }
    }

    /** Puts the originals of the published files back, last first; true when every one went back. */
    method RollBack(published: seq<string>, original: map<string, Text>, revised: map<string, Text>,
                    fails: nat -> bool) returns (ok: bool)
      requires staging.Some? && Safe(original, files, revised, staging.value) && Distinct(published)
      requires forall j :: 0 <= j < |published| ==> Backed(original, staging.value, published[j])
      requires forall n :: n in files && files[n] != original[n] ==> n in published
      modifies this
      ensures staging.Some? && Safe(original, files, revised, staging.value)
      ensures ok ==> files == original
    {
      ok := true;
      var i := |published|;
      assert published[..i] == published;
      while i > 0
        invariant i <= |published| && staging.Some? && Safe(original, files, revised, staging.value)
        invariant forall j :: 0 <= j < i ==> Backed(original, staging.value, published[j])
        invariant ok ==> forall n :: n in files && files[n] != original[n] ==> n in published[..i]
      {
        i := i - 1;
        assert published[..i + 1] == published[..i] + [published[i]];
        assert Backed(original, staging.value, published[i]);
        var back := Replace(Old(published[i]), fails);
        if !back { ok := false; }
      }
    }

    /** Stages, publishes and, if a rename fails, rolls back. */
    method Carry(changed: seq<string>, original: map<string, Text>, revised: map<string, Text>, fails: nat -> bool)
      returns (outcome: Outcome)
      requires staging == None && Distinct(changed) && files == original
      requires forall n :: n in changed ==> n in original && n in revised
      modifies this
      ensures outcome == Updated || outcome.Failed?
      ensures outcome == Updated ==> staging == None && files.Keys == original.Keys
      ensures outcome == Updated ==> forall j :: 0 <= j < |changed| ==>
        changed[j] in files && changed[j] in revised && files[changed[j]] == revised[changed[j]]
      ensures outcome == Updated ==> forall n :: n in files && files[n] != original[n] ==> n in changed
      ensures outcome == Failed(false) ==> staging == None && files == original
      ensures outcome == Failed(true) ==> staging.Some? && Safe(original, files, revised, staging.value)
      ensures outcome.Failed? ==> exists k :: fails(k)
    {
      staging := Some(map[]);
      var staged := Stage(changed, original, revised, fails);
      if !staged {
        staging := None;
        return Failed(false);
      }
      var count := Publish(changed, original, revised, fails);
      if count < |changed| {
        var ok := RollBack(changed[..count], original, revised, fails);
        if !ok { return Failed(true); }
        staging := None;
        return Failed(false);
      }
      assert changed[..count] == changed;
      staging := None;
      return Updated;
    }

    /** `update`: success means every changed file is new; otherwise every file is as it was, or the
        staging directory was kept and every file holds its original or has it staged there. */
    method Update(address: Address, fails: nat -> bool) returns (outcome: Outcome)
      requires staging == None
      modifies this
      ensures var wanted := Wanted(old(files), address);
        && (wanted.None? ==> outcome == Failed(false))
        && (outcome == Unchanged ==> wanted.Some? && files == old(files) && wanted.value == Read(files))
        && (outcome == Updated ==> wanted.Some? && files.Keys == old(files).Keys)
        && (outcome == Updated ==> Readable(files) && wanted.value == Read(files))
        && (outcome == Updated ==> forall n :: n in files && n !in NAMES ==> files[n] == old(files)[n])
        && (outcome == Failed(true) ==>
              wanted.Some? && staging.Some? && Safe(old(files), files, Revised(wanted.value), staging.value))
        && (wanted.Some? && (forall k :: !fails(k)) ==> !outcome.Failed?)
      ensures outcome != Failed(true) ==> staging == None
      ensures outcome == Failed(false) ==> files == old(files)
    {
      var wanted := Wanted(files, address);
      if wanted.None? { return Failed(false); }
      var original, revised := files, Revised(wanted.value);
      var changed := Changed(original, revised, |NAMES|);
      ChangedIs(original, revised, |NAMES|);
      if changed == [] {
        AllNew(original, changed, wanted.value, files);
        return Unchanged;
      }
      outcome := Carry(changed, original, revised, fails);
      if outcome == Updated { AllNew(original, changed, wanted.value, files); }
    }
  }

  /** The four files an update asks for: none when the address or a file is refused. */
  function Wanted(files: map<string, Text>, address: Address): (w: Option<Files>)
    ensures w.Some? ==> Readable(files)
  {
    if Allowed(address) && Readable(files) then Revise(Read(files), Dotted(address)) else None
  }

  /** The revised text of each of the four names. */
  function Revised(f: Files): (r: map<string, Text>)
    ensures r.Keys == {NAMES[0], NAMES[1], NAMES[2], NAMES[3]}
  {
    map[NAMES[0] := f.sip, NAMES[1] := f.lab, NAMES[2] := f.compose, NAMES[3] := f.account]
  }

  /** An update is asked for exactly with an allowed address and four files that are all there and can be revised; and
      each file's text is revised under its own name. */
  lemma WantedIs(files: map<string, Text>, address: Address)
    ensures var w := Wanted(files, address);
      && (w.Some? ==> Allowed(address))
      && (w.Some? ==>
            && "pjsip.conf" in files && "lab.env" in files && "compose.env" in files && "linphone-account.txt" in files
            && Revise(Files(files["pjsip.conf"], files["lab.env"], files["compose.env"], files["linphone-account.txt"]),
                      Dotted(address)) == w)
      && (w.None? ==>
            || !Allowed(address) || "pjsip.conf" !in files || "lab.env" !in files || "compose.env" !in files
            || "linphone-account.txt" !in files
            || Revise(Files(files["pjsip.conf"], files["lab.env"], files["compose.env"],
                            files["linphone-account.txt"]), Dotted(address)).None?)
      && (w.Some? ==>
            var r := Revised(w.value);
            && r.Keys == {"pjsip.conf", "lab.env", "compose.env", "linphone-account.txt"}
            && r["pjsip.conf"] == w.value.sip && r["lab.env"] == w.value.lab && r["compose.env"] == w.value.compose
            && r["linphone-account.txt"] == w.value.account)
  {
    NamesDiffer();
    assert NAMES[0] == "pjsip.conf" && NAMES[1] == "lab.env" && NAMES[2] == "compose.env"
      && NAMES[3] == "linphone-account.txt";
    assert Readable(files) <==> NAMES[0] in files && NAMES[1] in files && NAMES[2] in files && NAMES[3] in files;
  }

  /** The names, of the first `n`, whose text changes. */
  function Changed(original: map<string, Text>, revised: map<string, Text>, n: nat): seq<string>
    requires n <= |NAMES| && Readable(original) && forall i :: 0 <= i < |NAMES| ==> NAMES[i] in revised
  {
    if n == 0 then []
    else
      var name := NAMES[n - 1];
      Changed(original, revised, n - 1) + if revised[name] != original[name] then [name] else []
  }

  lemma NamesDiffer()
    ensures forall i, j :: 0 <= i < j < |NAMES| ==> NAMES[i] != NAMES[j]
  {
    assert NAMES[0][0] == 'p' && NAMES[1][1] == 'a' && NAMES[2][0] == 'c' && NAMES[3][1] == 'i';
  }

  lemma {:induction false} ChangedIs(original: map<string, Text>, revised: map<string, Text>, n: nat)
    requires n <= |NAMES| && Readable(original) && forall i :: 0 <= i < |NAMES| ==> NAMES[i] in revised
    ensures var c := Changed(original, revised, n);
      && (forall x :: x in c <==> exists i :: 0 <= i < n && NAMES[i] == x && revised[x] != original[x])
      && (forall i, j :: 0 <= i < j < |c| ==> c[i] != c[j])
  {
    if n > 0 {
      ChangedIs(original, revised, n - 1);
      NamesDiffer();
      var before, last := Changed(original, revised, n - 1), NAMES[n - 1];
      assert last !in before;
      forall x ensures x in Changed(original, revised, n) <==>
          x in before || (x == last && revised[last] != original[last]) { }
    }
  }

  /** Files that hold the revision wherever it differs hold the revision. */
  lemma AllNew(original: map<string, Text>, changed: seq<string>, f: Files, files: map<string, Text>)
    requires Readable(original) && changed == Changed(original, Revised(f), |NAMES|) && files.Keys == original.Keys
    requires forall j :: 0 <= j < |changed| ==>
      changed[j] in files && changed[j] in Revised(f) && files[changed[j]] == Revised(f)[changed[j]]
    requires forall n :: n in files && files[n] != original[n] ==> n in changed
    ensures Readable(files) && Read(files) == f
  {
    ChangedIs(original, Revised(f), |NAMES|);
    NamesDiffer();
    var r := Revised(f);
    forall i | 0 <= i < |NAMES| ensures NAMES[i] in files && files[NAMES[i]] == r[NAMES[i]] {
      assert NAMES[i] in original;
      assert NAMES[i] in changed || r[NAMES[i]] == original[NAMES[i]];
    }
    assert r[NAMES[0]] == f.sip && r[NAMES[1]] == f.lab && r[NAMES[2]] == f.compose && r[NAMES[3]] == f.account;
  }
}
