/**
 * The school creation form: an optional logo stored as a media record under a key made of
 * the submission time, then the school record that refers to it.
 */
module SchoolForm {
  import opened Wrappers
  import opened Seqs
  import opened Records
  import opened Db

  /** A file picked in the logo input: its name, the type the browser reports and its bytes. */
  datatype LogoFile = LogoFile(name: string, mimeType: string, bytes: seq<byte>)

  function DigitChar(d: nat): (c: char)
    requires d < 10
    ensures '0' <= c <= '9'
  {
    ('0' as int + d) as char
  }

  /** The decimal text of `n`, as a template literal renders a non-negative integer. */
  function NatToString(n: nat): (r: string)
    ensures 1 <= |r| && (n >= 10 ==> 2 <= |r|)
    ensures forall i :: 0 <= i < |r| ==> '0' <= r[i] <= '9'
  {
    if n < 10 then [DigitChar(n)] else NatToString(n / 10) + [DigitChar(n % 10)]
  }

  /** The text has no leading zero, unless it is the single digit of zero. */
  lemma {:induction false} NatToStringNoLeadingZero(n: nat)
    ensures NatToString(n)[0] == '0' <==> n == 0
  {
    if n >= 10 {
      NatToStringNoLeadingZero(n / 10);
      assert NatToString(n)[0] == NatToString(n / 10)[0];
    }
  }

  /** Distinct numbers have distinct texts. */
  lemma {:induction false} NatToStringInjective(a: nat, b: nat)
    requires NatToString(a) == NatToString(b)
    ensures a == b
  {
    var ra, rb := NatToString(a), NatToString(b);
    if a >= 10 && b >= 10 {
      assert ra[|ra| - 1] == DigitChar(a % 10) && rb[|rb| - 1] == DigitChar(b % 10);
      assert ra[..|ra| - 1] == NatToString(a / 10);
      assert rb[..|rb| - 1] == NatToString(b / 10);
      NatToStringInjective(a / 10, b / 10);
    }
  }

  /** The media key of a logo saved at time `now` (milliseconds since the epoch). */
  function LogoId(now: nat): (id: string)
    ensures |id| > 5 && id[..5] == "logo_"
  {
    "logo_" + NatToString(now)
  }

  /** Logos saved at different milliseconds get different media keys. */
  lemma LogoIdInjective(a: nat, b: nat)
    requires LogoId(a) == LogoId(b)
    ensures a == b
  {
    assert LogoId(a)[5..] == NatToString(a);
    assert LogoId(b)[5..] == NatToString(b);
    NatToStringInjective(a, b);
  }

  /** The media record put for a logo: the file's bytes in a Blob of the file's type. */
  function LogoMedia(f: LogoFile, now: nat): (m: Media)
    ensures m.id == LogoId(now) && m.kind == "logo" && m.fileName == f.name && m.mimeType == f.mimeType
    ensures m.blob == Some(Blob(f.bytes, BlobType(f.mimeType))) && m.blobBase64.None?
    ensures BlobMatchesMime(m)
  {
    Media(LogoId(now), "logo", Some(Blob(f.bytes, BlobType(f.mimeType))), f.name, f.mimeType, None)
  }

  /** Every media record holds a blob typed by its own `mimeType`. */
  ghost predicate AllBlobsMatch(media: seq<Media>)
  {
    forall i :: 0 <= i < |media| ==> BlobMatchesMime(media[i])
  }

  /** A put keeps every key of the media table, so references that resolved still do. */
  lemma PutKeepsLogosResolved(t: Tables, m: Media)
    requires UniqueKeys(t.media, MediaKey) && LogosResolve(t)
    ensures LogosResolve(t.(media := Upsert(t.media, MediaKey, m)))
    ensures m.id in Keys(Upsert(t.media, MediaKey, m), MediaKey)
  {
    UpsertKeys(t.media, MediaKey, m);
  }

  /** A new school whose logo reference resolves keeps every reference resolved. */
  lemma AddKeepsLogosResolved(t: Tables, s: School)
    requires LogosResolve(t)
    requires s.logoBlobId.Some? ==> s.logoBlobId.value in Keys(t.media, MediaKey)
    ensures LogosResolve(t.(schools := t.schools + [s]))
  {
    var schools := t.schools + [s];
    assert forall i :: 0 <= i < |t.schools| ==> schools[i] == t.schools[i];
  }

  /** Putting a record whose blob matches its type keeps every blob matching. */
  lemma PutKeepsBlobsMatching(media: seq<Media>, m: Media)
    requires AllBlobsMatch(media) && BlobMatchesMime(m)
    ensures AllBlobsMatch(Upsert(media, MediaKey, m))
  {
    UpsertMembers(media, MediaKey, m);
    var r := Upsert(media, MediaKey, m);
    forall i | 0 <= i < |r|
      ensures BlobMatchesMime(r[i])
    {
      assert r[i] in r;
    }
  }

  class SchoolFormPage {
    const store: SchoolDb
    var name: string
    var address: string
    var logoFile: Option<LogoFile>
    var onCreatedCalls: nat

    constructor (store: SchoolDb)
      ensures this.store == store && name == "" && address == "" && logoFile.None?
      ensures onCreatedCalls == 0
    {
      this.store := store;
      name, address, logoFile := "", "", None;
      onCreatedCalls := 0;
    }

    /**
     * Submit: when a logo is chosen, put its media record under `LogoId(now)`; then add the
     * school with the entered name and address and the logo's key, if any. The form is reset
     * and `onCreated` is called once. Logo references that resolved before still resolve, the
     * new one resolves too, and every stored blob keeps the type of its media record.
     */
    method HandleSubmit(now: nat, freshId: int)
      requires store.Valid() && FreshKey(store.schools, SchoolKey, freshId)
      modifies this, store
      ensures store.Valid()
      ensures old(logoFile).None? ==> store.State() == old(store.State()).(
        schools := old(store.schools) + [School(freshId, old(name), old(address), None)])
      ensures old(logoFile).Some? ==> store.State() == old(store.State()).(
        media := Upsert(old(store.media), MediaKey, LogoMedia(old(logoFile).value, now)),
        schools := old(store.schools) + [School(freshId, old(name), old(address), Some(LogoId(now)))])
      ensures LogosResolve(old(store.State())) ==> LogosResolve(store.State())
      ensures old(logoFile).Some? ==> LogoId(now) in Keys(store.media, MediaKey)
      ensures AllBlobsMatch(old(store.media)) ==> AllBlobsMatch(store.media)
      ensures name == "" && address == "" && logoFile.None?
      ensures onCreatedCalls == old(onCreatedCalls) + 1
    {
      var logoBlobId: Option<string> := None;
      if logoFile.Some? {
        var m := LogoMedia(logoFile.value, now);
        logoBlobId := Some(m.id);
        ghost var t := store.State();
        if LogosResolve(t) {
          PutKeepsLogosResolved(t, m);
        }
        if AllBlobsMatch(t.media) {
          PutKeepsBlobsMatching(t.media, m);
        }
        UpsertKeys(t.media, MediaKey, m);
        store.PutMedia(m);
      }
      ghost var t := store.State();
      var school := School(freshId, name, address, logoBlobId);
      if LogosResolve(t) && (logoBlobId.Some? ==> logoBlobId.value in Keys(t.media, MediaKey)) {
        AddKeepsLogosResolved(t, school);
      }
      store.AddSchool(school);
      name, address, logoFile := "", "", None;
      onCreatedCalls := onCreatedCalls + 1;
    }
  }
}
