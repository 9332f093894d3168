/**
 * The photo dialog of an item: uploading a batch of files to the "item-photos"
 * bucket and appending their public URLs to the item's photos, deleting the photo on
 * display, and stepping through the photos.
 */
module PhotoDialog {
  import opened Options
  import opened Js
  import opened Seqs
  import opened Store

  // ---------------------------------------------------------------------------
  // Files, storage keys and URLs
  // ---------------------------------------------------------------------------

  /** A selected file: its name, MIME type and size in bytes. */
  datatype PhotoFile = PhotoFile(name: string, mimeType: string, size: nat)

  /** 5 MB. */
  const MaxPhotoBytes: nat := 5 * 1024 * 1024

  /** A file is uploaded only if its type starts with "image/" and it is at most 5 MB. */
  predicate Acceptable(f: PhotoFile)
    ensures Acceptable(f) ==> f.size <= 5242880 && |f.mimeType| >= 6 && f.mimeType[..6] == "image/"
  {
    StartsWith(f.mimeType, "image/") && f.size <= MaxPhotoBytes
  }

  /** Exactly 5 MB is accepted, one byte more is not, and a non-image is not. */
  lemma AcceptableBounds(name: string)
    ensures Acceptable(PhotoFile(name, "image/png", MaxPhotoBytes))
    ensures !Acceptable(PhotoFile(name, "image/png", MaxPhotoBytes + 1))
    ensures !Acceptable(PhotoFile(name, "text/plain", 0))
  {
    assert "text/plain"[..6][0] != "image/"[0];
  }

  /** One selected file, the `Date.now()` reading taken for it, and whether its upload
      succeeds. */
  datatype Attempt = Attempt(file: PhotoFile, stamp: nat, uploadOk: bool)

  /** The file passes both checks and its upload succeeds. */
  predicate Stored(a: Attempt)
  {
    Acceptable(a.file) && a.uploadOk
  }

  /** `${item.id}/${Date.now()}_${i}.${ext}`, where `ext` is the last piece of the
      file name split on '.' (the whole name when it has no dot). */
  function StorageKey(itemId: Id, stamp: nat, i: nat, name: string): (key: string)
    ensures StartsWith(key, itemId + "/")
    ensures LastPiece(key, '.') == LastPiece(name, '.')
  {
    var stem := itemId + "/" + NatToString(stamp) + "_" + NatToString(i);
    var ext := LastPiece(name, '.');
    LastPieceAfter(stem, ext, '.');
    assert (stem + "." + ext)[..|itemId + "/"|] == itemId + "/";
    stem + "." + ext
  }

  /** The bucket's segment in a public URL. */
  const PhotoPath: string := "/item-photos/"

  /** `getPublicUrl(path)`: the project's public storage address, the bucket, the key. */
  function PublicUrl(base: string, key: string): (url: string)
    ensures |url| == |base| + |PhotoPath| + |key|
    ensures url[..|base|] == base && OccursAt(url, PhotoPath, |base|) && url[|base| + |PhotoPath|..] == key
  {
    base + PhotoPath + key
  }

  // ---------------------------------------------------------------------------
  // Upload
  // ---------------------------------------------------------------------------

  /** The positions, among the first `n` files, of those that end up stored: in file
      order, and every stored one is there. */
  function StoredIndices(attempts: seq<Attempt>, n: nat): (r: seq<nat>)
    requires n <= |attempts|
    ensures |r| <= n
    ensures forall k :: 0 <= k < |r| ==> r[k] < n && Stored(attempts[r[k]])
    ensures forall k, l :: 0 <= k < l < |r| ==> r[k] < r[l]
    ensures forall j :: 0 <= j < n && Stored(attempts[j]) ==> j in r
  {
    if n == 0 then []
    else StoredIndices(attempts, n - 1) + (if Stored(attempts[n - 1]) then [n - 1] else [])
  }

  /** The storage key of the file at position `j`. */
  function KeyAt(itemId: Id, attempts: seq<Attempt>, j: nat): string
    requires j < |attempts|
  {
    StorageKey(itemId, attempts[j].stamp, j, attempts[j].file.name)
  }

  /** The keys of the files, among the first `n`, that end up stored. */
  function KeysUpTo(itemId: Id, attempts: seq<Attempt>, n: nat): (keys: seq<string>)
    requires n <= |attempts|
    ensures |keys| <= n
  {
    if n == 0 then []
    else KeysUpTo(itemId, attempts, n - 1) + (if Stored(attempts[n - 1]) then [KeyAt(itemId, attempts, n - 1)] else [])
  }

  /** The keys are those of the stored positions, in the same order. */
  lemma {:induction false} KeysUpToIndices(itemId: Id, attempts: seq<Attempt>, n: nat)
    requires n <= |attempts|
    ensures var keys := KeysUpTo(itemId, attempts, n);
            var idx := StoredIndices(attempts, n);
            |keys| == |idx| && forall k :: 0 <= k < |idx| ==> keys[k] == KeyAt(itemId, attempts, idx[k])
  {
    if n > 0 {
      KeysUpToIndices(itemId, attempts, n - 1);
    }
  }

  /** No key at all exactly when no file is stored. */
  lemma {:induction false} KeysUpToEmpty(itemId: Id, attempts: seq<Attempt>, n: nat)
    requires n <= |attempts|
    ensures KeysUpTo(itemId, attempts, n) == [] <==> forall j :: 0 <= j < n ==> !Stored(attempts[j])
  {
    if n > 0 {
      KeysUpToEmpty(itemId, attempts, n - 1);
    }
  }

  /** The public URLs of the given keys. */
  function UrlsOf(base: string, keys: seq<string>): (urls: seq<string>)
    ensures |urls| == |keys|
    ensures forall k :: 0 <= k < |keys| ==> urls[k] == PublicUrl(base, keys[k])
  {
    if keys == [] then [] else UrlsOf(base, keys[..|keys| - 1]) + [PublicUrl(base, keys[|keys| - 1])]
  }

  /** Appending a key appends its URL and its object. */
  lemma AppendKey(t: Tables, base: string, keys: seq<string>, key: string)
    ensures UrlsOf(base, keys + [key]) == UrlsOf(base, keys) + [PublicUrl(base, key)]
    ensures t.PutObjects(keys + [key]) == t.PutObjects(keys).PutObject(key)
  {
    assert (keys + [key])[..|keys|] == keys;
  }

  /** The keys of all files that end up stored. */
  function UploadedKeys(itemId: Id, attempts: seq<Attempt>): seq<string>
  {
    KeysUpTo(itemId, attempts, |attempts|)
  }

  /** `uploadedUrls` after the loop: one URL per stored file, in file order; skipped
      and failed files leave no URL and do not stop the loop. */
  lemma UploadedUrlsSpec(itemId: Id, attempts: seq<Attempt>, base: string)
    ensures var urls := UrlsOf(base, UploadedKeys(itemId, attempts));
            var idx := StoredIndices(attempts, |attempts|);
            |urls| <= |attempts| && |urls| == |idx| &&
            (forall k :: 0 <= k < |urls| ==>
               Stored(attempts[idx[k]]) &&
               urls[k] == PublicUrl(base, KeyAt(itemId, attempts, idx[k]))) &&
            (forall k, l :: 0 <= k < l < |urls| ==> idx[k] < idx[l]) &&
            (forall j :: 0 <= j < |attempts| && Stored(attempts[j]) ==> j in idx)
  {
    KeysUpToIndices(itemId, attempts, |attempts|);
  }

  /** How an upload batch ended. */
  datatype UploadOutcome = NothingSelected | NothingUploaded | Saved(count: nat) | SaveFailed

  datatype UploadStep = UploadStep(tables: Tables, photos: seq<string>, outcome: UploadOutcome)

  /** `handleFileSelect` on the dialog's `photos`; `updateOk` says whether the item
      update succeeds. */
  function Upload(t: Tables, photos: seq<string>, itemId: Id, attempts: seq<Attempt>, base: string, updateOk: bool): (s: UploadStep)
    ensures attempts == [] ==> s == UploadStep(t, photos, NothingSelected)
    ensures s.tables.log == t.log && s.tables.warehouses == t.warehouses && s.tables.users == t.users
    ensures s.outcome.Saved? <==> updateOk && exists j :: 0 <= j < |attempts| && Stored(attempts[j])
    ensures s.outcome.Saved? ==>
              s.photos == photos + UrlsOf(base, UploadedKeys(itemId, attempts)) &&
              0 < s.outcome.count <= |attempts| && s.outcome.count == |s.photos| - |photos| &&
              s.tables == t.PutObjects(UploadedKeys(itemId, attempts)).Update(itemId, NoChange.(photos := Some(s.photos)))
    ensures !s.outcome.Saved? ==> s.photos == photos && s.tables.items == t.items
  {
    if attempts == [] then UploadStep(t, photos, NothingSelected)
    else
      var keys := UploadedKeys(itemId, attempts);
      var stored := t.PutObjects(keys);
      var urls := UrlsOf(base, keys);
      KeysUpToEmpty(itemId, attempts, |attempts|);
      if urls == [] then UploadStep(stored, photos, NothingUploaded)
      else if !updateOk then UploadStep(stored, photos, SaveFailed)
      else UploadStep(stored.Update(itemId, NoChange.(photos := Some(photos + urls))), photos + urls, Saved(|urls|))
  }

  /** A failed item update leaves the uploaded objects in the bucket while the item
      does not reference them. */
  lemma UploadFailureKeepsObjects(t: Tables, photos: seq<string>, itemId: Id, attempts: seq<Attempt>, base: string)
    ensures var s := Upload(t, photos, itemId, attempts, base, false);
            s.photos == photos && s.tables.items == t.items &&
            forall k :: k in UploadedKeys(itemId, attempts) ==> k in s.tables.objects
  {
    PutObjectsContents(t, UploadedKeys(itemId, attempts));
  }

  // ---------------------------------------------------------------------------
  // Delete
  // ---------------------------------------------------------------------------

  /** `url.split('/item-photos/')`, which must give exactly two parts; the second is
      the object's path in the bucket. */
  function StoragePath(url: string): (r: Option<string>)
    ensures r.Some? <==> |SplitOn(url, PhotoPath)| == 2
    ensures r.Some? ==> r.value == SplitOn(url, PhotoPath)[1]
    ensures !Contains(url, PhotoPath) ==> r.None?
    ensures r.Some? ==>
              !Contains(r.value, PhotoPath) && |PhotoPath| + |r.value| <= |url| &&
              url[|url| - |r.value| - |PhotoPath|..] == PhotoPath + r.value
  {
    var parts := SplitOn(url, PhotoPath);
    if |parts| == 2 then
      var found := FindFrom(url, PhotoPath, 0);
      if found.None? then assert false; None
      else
        var i := found.value;
        var rest := url[i + |PhotoPath|..];
        assert parts == [url[..i]] + SplitOn(rest, PhotoPath);
        SplitOnSingle(rest);
        assert url[i..i + |PhotoPath|] == PhotoPath;
        assert url[|url| - |rest| - |PhotoPath|..] == url[i..i + |PhotoPath|] + rest;
        Some(rest)
    else None
  }

  /** A split into one part is the string itself. */
  lemma SplitOnSingle(s: string)
    requires |SplitOn(s, PhotoPath)| == 1
    ensures SplitOn(s, PhotoPath) == [s]
  {
  }

  /** The path read back from a public URL is the key it was made from, when the
      bucket segment does not occur earlier in the address or in the key. */
  lemma StoragePathOfPublicUrl(base: string, key: string)
    requires forall j :: 0 <= j < |base| ==> !OccursAt(base + PhotoPath, PhotoPath, j)
    requires !Contains(key, PhotoPath)
    ensures StoragePath(PublicUrl(base, key)) == Some(key)
  {
    var url := PublicUrl(base, key);
    assert OccursAt(url, PhotoPath, |base|) by {
      assert url[|base|..|base| + |PhotoPath|] == PhotoPath;
    }
    forall j | 0 <= j < |base|
      ensures !OccursAt(url, PhotoPath, j)
    {
      assert !OccursAt(base + PhotoPath, PhotoPath, j);
      assert url[j..j + |PhotoPath|] == (base + PhotoPath)[j..j + |PhotoPath|];
    }
    assert FindFrom(url, PhotoPath, 0) == Some(|base|);
    assert url[|base| + |PhotoPath|..] == key;
    assert url[..|base|] == base;
    SplitOnSingle(key);
    assert SplitOn(url, PhotoPath) == [base, key];
  }

  /** `currentPhotoIndex >= newPhotos.length && newPhotos.length > 0`: move back to
      the last photo. */
  function Clamp(index: int, n: nat): (r: int)
    ensures n > 0 && index >= n ==> r == n - 1
    ensures !(n > 0 && index >= n) ==> r == index
  {
    if index >= n && n > 0 then n - 1 else index
  }

  datatype DeleteStep = DeleteStep(tables: Tables, photos: seq<string>, index: int, outcome: Outcome)

  /** `handleDeletePhoto(photos[index], index)`, confirmed; `removeOk` says whether the
      object removal succeeds and `updateOk` whether the item update does. */
  function DeletePhoto(t: Tables, photos: seq<string>, index: int, itemId: Id, removeOk: bool, updateOk: bool): (s: DeleteStep)
    requires 0 <= index < |photos|
    ensures s.outcome == Done <==> StoragePath(photos[index]).Some? && removeOk && updateOk
    ensures s.outcome != Done ==> s.photos == photos && s.index == index && s.tables.items == t.items
    ensures StoragePath(photos[index]).None? || !removeOk ==> s.tables == t
    ensures StoragePath(photos[index]).Some? && removeOk ==>
              s.tables.objects == t.objects - {StoragePath(photos[index]).value}
    ensures s.tables.log == t.log && s.tables.warehouses == t.warehouses && s.tables.users == t.users
    ensures s.outcome == Done ==>
              s.photos == RemoveAt(photos, index) &&
              s.tables.items == t.Update(itemId, NoChange.(photos := Some(s.photos))).items &&
              s.index == Clamp(index, |s.photos|)
    ensures |s.photos| > 0 ==> 0 <= s.index < |s.photos|
    ensures |s.photos| == 0 ==> s.index == 0
  {
    var path := StoragePath(photos[index]);
    if path.None? || !removeOk then DeleteStep(t, photos, index, Failed)
    else
      var removed := t.RemoveObject(path.value);
      var rest := RemoveAt(photos, index);
      if !updateOk then DeleteStep(removed, photos, index, Failed)
      else DeleteStep(removed.Update(itemId, NoChange.(photos := Some(rest))), rest, Clamp(index, |rest|), Done)
  }

  /** A completed delete removes exactly the photo on display and keeps the others in
      their order; a failed item update after a successful removal leaves the item
      pointing at an object that is gone. */
  lemma DeletePhotoEffect(t: Tables, photos: seq<string>, index: int, itemId: Id, removeOk: bool, updateOk: bool)
    requires 0 <= index < |photos|
    ensures var s := DeletePhoto(t, photos, index, itemId, removeOk, updateOk);
            (s.outcome == Done ==>
               |s.photos| == |photos| - 1 &&
               multiset(s.photos) + multiset{photos[index]} == multiset(photos) &&
               IsSubsequence(s.photos, photos)) &&
            (StoragePath(photos[index]).Some? && removeOk && !updateOk ==>
               s.photos == photos && StoragePath(photos[index]).value !in s.tables.objects)
  {
    var s := DeletePhoto(t, photos, index, itemId, removeOk, updateOk);
    if s.outcome == Done {
      RemoveAtMultiset(photos, index);
      RemoveAtIsSubsequence(photos, index);
    }
  }

  /** Removing one element leaves a subsequence. */
  lemma {:induction false} RemoveAtIsSubsequence(s: seq<string>, k: int)
    requires 0 <= k < |s|
    ensures IsSubsequence(RemoveAt(s, k), s)
    decreases |s|
  {
    var r := RemoveAt(s, k);
    if k == 0 {
      assert r == s[1..];
      SubsequenceTail(s);
    } else {
      var rest := RemoveAt(s[1..], k - 1);
      assert r == [s[0]] + rest;
      assert r[0] == s[0] && r[1..] == rest;
      RemoveAtIsSubsequence(s[1..], k - 1);
    }
  }

  /** Dropping the first element leaves a subsequence. */
  lemma {:induction false} SubsequenceTail(s: seq<string>)
    requires |s| > 0
    ensures IsSubsequence(s[1..], s)
    decreases |s|
  {
    SubsequenceRefl(s[1..]);
    SubsequenceCons(s[1..], s[1..], s[0]);
    assert s == [s[0]] + s[1..];
  }

  lemma {:induction false} SubsequenceRefl(s: seq<string>)
    ensures IsSubsequence(s, s)
    decreases |s|
  {
    if s != [] {
      SubsequenceRefl(s[1..]);
    }
  }

  // ---------------------------------------------------------------------------
  // Stepping through the photos
  // ---------------------------------------------------------------------------

  /** `(prev + 1) % photos.length`. */
  function Next(i: int, n: int): (r: int)
    requires 0 <= i < n
    ensures 0 <= r < n
    ensures r == if i == n - 1 then 0 else i + 1
  {
    (i + 1) % n
  }

  /** `(prev - 1 + photos.length) % photos.length`. */
  function Prev(i: int, n: int): (r: int)
    requires 0 <= i < n
    ensures 0 <= r < n
    ensures r == if i == 0 then n - 1 else i - 1
  {
    (i - 1 + n) % n
  }

  /** Next and previous undo each other. */
  lemma NextPrevInverse(i: int, n: int)
    requires 0 <= i < n
    ensures Prev(Next(i, n), n) == i
    ensures Next(Prev(i, n), n) == i
  {
  }

  class PhotoDialogState {
    var photos: seq<string>
    var currentIndex: int

    /** The index points at a photo whenever there is one, and is 0 otherwise. */
    predicate Valid()
      reads this
    {
      0 <= currentIndex && (|photos| > 0 ==> currentIndex < |photos|) && (|photos| == 0 ==> currentIndex == 0)
    }

    constructor (item: Item)
      ensures photos == item.photos && currentIndex == 0 && Valid()
    {
      photos := item.photos;
      currentIndex := 0;
    }

    /** The loop of `handleFileSelect`: check each file, upload it under its key, and
        collect the public URLs of the uploads that succeed. */
    method UploadEach(db: Db, itemId: Id, attempts: seq<Attempt>, base: string) returns (uploadedUrls: seq<string>)
      modifies db
      ensures uploadedUrls == UrlsOf(base, UploadedKeys(itemId, attempts))
      ensures db.Snapshot() == old(db.Snapshot()).PutObjects(UploadedKeys(itemId, attempts))
    {
      uploadedUrls := [];
      ghost var keys: seq<string> := [];
      for i := 0 to |attempts|
        invariant keys == KeysUpTo(itemId, attempts, i)
        invariant uploadedUrls == UrlsOf(base, keys)
        invariant db.Snapshot() == old(db.Snapshot()).PutObjects(keys)
      {
        var a := attempts[i];
        if !StartsWith(a.file.mimeType, "image/") {
          continue;
        }
        if a.file.size > MaxPhotoBytes {
          continue;
        }
        var key := StorageKey(itemId, a.stamp, i, a.file.name);
        if !a.uploadOk {
          continue;
        }
        AppendKey(old(db.Snapshot()), base, keys, key);
        db.PutObject(key);
        uploadedUrls := uploadedUrls + [PublicUrl(base, key)];
        keys := keys + [key];
      }
    }

    /** `handleFileSelect`: the upload loop, then one item update. */
    method HandleFileSelect(db: Db, itemId: Id, attempts: seq<Attempt>, base: string, updateOk: bool)
      returns (outcome: UploadOutcome)
      requires Valid()
      modifies this, db
      ensures Valid() && currentIndex == old(currentIndex)
      ensures UploadStep(db.Snapshot(), photos, outcome) ==
              Upload(old(db.Snapshot()), old(photos), itemId, attempts, base, updateOk)
    {
      if |attempts| == 0 {
        return NothingSelected;
      }
      var uploadedUrls := UploadEach(db, itemId, attempts, base);
      if |uploadedUrls| == 0 {
        return NothingUploaded;
      }
      var newPhotos := photos + uploadedUrls;
      if !updateOk {
        return SaveFailed;
      }
      db.Update(itemId, NoChange.(photos := Some(newPhotos)));
      photos := newPhotos;
      return Saved(|uploadedUrls|);
    }

    /** The delete button: `handleDeletePhoto(photos[currentPhotoIndex], currentPhotoIndex)`. */
    method HandleDeletePhoto(db: Db, itemId: Id, removeOk: bool, updateOk: bool) returns (outcome: Outcome)
      requires Valid() && |photos| > 0
      modifies this, db
      ensures Valid()
      ensures DeleteStep(db.Snapshot(), photos, currentIndex, outcome) ==
              DeletePhoto(old(db.Snapshot()), old(photos), old(currentIndex), itemId, removeOk, updateOk)
    {
      var urlParts := StoragePath(photos[currentIndex]);
      if urlParts.None? {
        return Failed;
      }
      if !removeOk {
        return Failed;
      }
      db.RemoveObject(urlParts.value);
      var newPhotos := RemoveAt(photos, currentIndex);
      if !updateOk {
        return Failed;
      }
      db.Update(itemId, NoChange.(photos := Some(newPhotos)));
      photos := newPhotos;
      if currentIndex >= |newPhotos| && |newPhotos| > 0 {
        currentIndex := |newPhotos| - 1;
      }
      return Done;
    }

    /** The right arrow, shown when there is more than one photo. */
    method NextPhoto()
      requires Valid() && |photos| > 1
      modifies this
      ensures Valid() && photos == old(photos) && currentIndex == Next(old(currentIndex), |photos|)
    {
      currentIndex := (currentIndex + 1) % |photos|;
    }

    /** The left arrow, shown when there is more than one photo. */
    method PrevPhoto()
      requires Valid() && |photos| > 1
      modifies this
      ensures Valid() && photos == old(photos) && currentIndex == Prev(old(currentIndex), |photos|)
    {
      currentIndex := (currentIndex - 1 + |photos|) % |photos|;
    }

    /** A button of the thumbnail strip, which is shown when there is more than one
        photo and has one button per photo. */
    method ShowPhoto(i: nat)
      requires Valid() && |photos| > 1 && i < |photos|
      modifies this
      ensures Valid() && photos == old(photos) && currentIndex == i
    {
      currentIndex := i;
    }
  }
}
