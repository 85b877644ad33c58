/** Ownership claims as a reference count (crates/server/src/routes/files.rs). */
module Ownership {
  import opened Basics
  import opened XetCore
  import opened Store
  import opened Invariants

  type Claims = map<(Hash, Owner), Claim>

  datatype DeleteError = NotFound | Forbidden

  datatype DeleteOutcome = DeleteOutcome(deleted: bool, remainingOwners: nat)

  // The answer of delete_file.
  function DeleteAnswer(st: State, caller: Caller, f: Hash): Result<DeleteOutcome, DeleteError> {
    if f !in st.fileIndex then Err(NotFound)
    else
      var owners := Owners(st.claims, f);
      if owners == {} then (if caller.admin then Ok(DeleteOutcome(true, 0)) else Err(Forbidden))
      else if (f, caller.owner) !in st.claims then Err(Forbidden)
      else Ok(DeleteOutcome(|owners| == 1, |owners| - 1))
  }

  // In a reachable state a release answers the number of owners left, removes the file
  // exactly when that is none, and touches no other file or claim.
  lemma {:induction false} ReleaseIsExact(x: Xet, st: State, caller: Caller, f: Hash)
    requires Inv(x, st)
    ensures var next, answer := Delete(st, caller, f), DeleteAnswer(st, caller, f);
      && (answer.Ok? <==> (f, caller.owner) in st.claims)
      && (answer.Err? ==> next == st && (answer.error == NotFound <==> Owners(st.claims, f) == {}))
      && (answer.Ok? ==>
            && answer.value.remainingOwners == |Owners(next.claims, f)|
            && Owners(next.claims, f) == Owners(st.claims, f) - {caller.owner}
            && (answer.value.deleted <==> f !in next.fileIndex)
            && (answer.value.deleted <==> Owners(next.claims, f) == {}))
      && (forall g :: g != f ==> (g in next.fileIndex <==> g in st.fileIndex) && Owners(next.claims, g) == Owners(st.claims, g))
  {
    var owners := Owners(st.claims, f);
    HasOwner(st.claims, f, caller.owner);
    DeleteKeepsInv(x, st, caller, f);
    InvMatches(x, st);
    InvMatches(x, Delete(st, caller, f));
    hide Inv;
    if caller.owner in owners {
      LastOne(owners, caller.owner);
    }
    forall g ensures Owners(Delete(st, caller, f).claims, g) ==
      if g == f && caller.owner in owners then Owners(st.claims, g) - {caller.owner} else Owners(st.claims, g)
    {
      OwnersAfterDelete(st, caller, f, g);
    }
  }

  // A release touches the file index and the claims alone, and of them only the entries of this
  // file; and of its claims only the caller's.
  lemma {:induction false} ReleaseTouches(x: Xet, st: State, caller: Caller, f: Hash)
    requires Inv(x, st)
    ensures var next := Delete(st, caller, f);
      && next == st.(fileIndex := next.fileIndex, claims := next.claims)
      && (forall g :: g in next.fileIndex ==> g in st.fileIndex && next.fileIndex[g] == st.fileIndex[g])
      && (forall k :: k in next.claims <==> k in st.claims && k != (f, caller.owner))
      && (forall k :: k in next.claims ==> next.claims[k] == st.claims[k])
  {
    forall k: (Hash, Owner) ensures k in Delete(st, caller, f).claims <==> k in st.claims && k != (f, caller.owner) {
      ClaimAfterDelete(x, st, caller, f, k);
    }
    hide Owners;
  }

  lemma {:induction false} ClaimAfterDelete(x: Xet, st: State, caller: Caller, f: Hash, k: (Hash, Owner))
    requires Inv(x, st)
    ensures k in Delete(st, caller, f).claims <==> k in st.claims && k != (f, caller.owner)
  {
    InvMatches(x, st);
    hide Inv, ClaimsMatch, Delete, Owners;
    OwnersAfterDelete(st, caller, f, k.0);
    HasOwner(Delete(st, caller, f).claims, k.0, k.1);
    HasOwner(st.claims, k.0, k.1);
    HasOwner(st.claims, f, caller.owner);
    assert k == (k.0, k.1);
  }

  // A file that is indexed without any owner is removed by admins only; no run gets there.
  lemma {:induction false} OwnerlessNeedsAdmin(st: State, caller: Caller, f: Hash)
    requires f in st.fileIndex && Owners(st.claims, f) == {}
    ensures caller.admin ==>
      f !in Delete(st, caller, f).fileIndex && DeleteAnswer(st, caller, f) == Ok(DeleteOutcome(true, 0))
    ensures !caller.admin ==> Delete(st, caller, f) == st && DeleteAnswer(st, caller, f) == Err(Forbidden)
  {
    hide Owners;
  }

  // Being an admin releases nobody else's claim.
  lemma {:induction false} AdminIsNoOwner(st: State, caller: Caller, f: Hash)
    requires f in st.fileIndex && Owners(st.claims, f) != {} && (f, caller.owner) !in st.claims
    ensures Delete(st, caller, f) == st && DeleteAnswer(st, caller, f) == Err(Forbidden)
  {
    hide Owners;
  }

  lemma {:induction false} InvMatches(x: Xet, st: State)
    requires Inv(x, st)
    ensures ClaimsMatch(st)
  {
  }

  lemma {:induction false} OwnersAfterDelete(st: State, caller: Caller, f: Hash, g: Hash)
    requires ClaimsMatch(st)
    ensures Owners(Delete(st, caller, f).claims, g) ==
      if g == f && caller.owner in Owners(st.claims, f) then Owners(st.claims, g) - {caller.owner} else Owners(st.claims, g)
  {
    var owners := Owners(st.claims, f);
    HasOwner(st.claims, f, caller.owner);
    if caller.owner in owners {
      LastOne(owners, caller.owner);
    }
    ReleaseOwners(st.claims, f, caller.owner, g);
    OwnersWithout(st, f, g);
    hide Owners;
  }

  // Registering again refreshes a claim's size but never its time.
  lemma {:induction false} ClaimTimeKept(x: Xet, st: State, owner: Owner, body: seq<Byte>, now: int, k: (Hash, Owner))
    requires k in st.claims
    ensures var next := Register(x, st, owner, body, now);
      k in next.claims && next.claims[k].createdAt == st.claims[k].createdAt
  {
    hide ValidFile;
    if ValidUpload(x, st.xorbs, body) {
      ClaimTimesKept(x, st.xorbs, st.claims, x.parseShard(body).value.files, owner, now, k);
    }
  }

  lemma {:induction false} ClaimTimesKept(
    x: Xet, xorbs: map<Hash, Blob>, claims: Claims, files: seq<FileBlock>, owner: Owner, now: int, k: (Hash, Owner))
    requires k in claims
    ensures var next := ClaimFiles(x, xorbs, claims, files, owner, now);
      k in next && next[k].createdAt == claims[k].createdAt
  {
    if files != [] {
      ClaimTimesKept(x, xorbs, claims, files[..|files| - 1], owner, now, k);
    }
  }
}
