// One flat Redis keyspace holds four families of keys, told apart by their prefixes only.
module Keyspace {
  import opened Types

  const LEASE := "control:"
  const INDEX := "control-session:"
  const VIDEO := "video_session:"
  const VIEWER := "video_viewer:"

  datatype Payload = SessionJson(session: ControlSession) | VideoJson(video: VideoSession) | Text(text: string)
  type Db = map<string, Entry<Payload>>

  predicate IsPrefix(p: string) {
    p == LEASE || p == INDEX || p == VIDEO || p == VIEWER
  }

  // Two keys are the same key only if they belong to the same family and name the same id,
  // whatever characters (':' or another prefix included) the ids hold.
  lemma KeysNeverCollide(p: string, a: string, q: string, b: string)
    requires IsPrefix(p) && IsPrefix(q)
    ensures p + a == q + b <==> p == q && a == b
  {
    if p == q {
      assert a == (p + a)[|p|..] && b == (q + b)[|q|..];
    } else {
      var i := DifferAt(p, q);
      assert (p + a)[i] == p[i] && (q + b)[i] == q[i];
    }
  }

  // The first position at which two family prefixes disagree.
  lemma DifferAt(p: string, q: string) returns (i: nat)
    requires IsPrefix(p) && IsPrefix(q) && p != q
    ensures i < |p| && i < |q| && p[i] != q[i]
  {
    i := if (p == LEASE || p == INDEX) != (q == LEASE || q == INDEX) then 0
         else if p == LEASE || q == LEASE then 7 else 6;
    assert LEASE[0] == 'c' && INDEX[0] == 'c' && VIDEO[0] == 'v' && VIEWER[0] == 'v';
    assert LEASE[7] == ':' && INDEX[7] == '-' && VIDEO[6] == 's' && VIEWER[6] == 'v';
  }

  predicate Fits(p: string, x: Payload) {
    if p == LEASE then x.SessionJson? else if p == VIDEO then x.VideoJson? else x.Text?
  }

  function At<T>(m: map<string, Entry<T>>, key: string): Option<Entry<T>> {
    if key in m then Some(m[key]) else None
  }

  // What the four-map store says the flat keyspace holds for one id of one family.
  function StoredAt(st: Store, p: string, a: string): Option<Entry<Payload>>
    requires IsPrefix(p)
  {
    if p == LEASE && a in st.lease then Some(Entry(SessionJson(st.lease[a].value), st.lease[a].deadline))
    else if p == INDEX && a in st.index then Some(Entry(Text(st.index[a].value), st.index[a].deadline))
    else if p == VIDEO && a in st.video then Some(Entry(VideoJson(st.video[a].value), st.video[a].deadline))
    else if p == VIEWER && a in st.viewer then Some(Entry(Text(st.viewer[a].value), st.viewer[a].deadline))
    else None
  }

  // The flat keyspace holds exactly the four maps.
  ghost predicate Represents(db: Db, st: Store) {
    forall p, a {:trigger StoredAt(st, p, a)} :: IsPrefix(p) ==> At(db, p + a) == StoredAt(st, p, a)
  }

  // A keyspace stands for one store only.
  lemma RepresentsOneStore(db: Db, st: Store, st': Store)
    requires Represents(db, st) && Represents(db, st')
    ensures st == st'
  {
    forall p, a | IsPrefix(p) ensures StoredAt(st, p, a) == StoredAt(st', p, a) {
    }
    assert forall a :: StoredAt(st, LEASE, a) == StoredAt(st', LEASE, a);
    assert forall a :: StoredAt(st, INDEX, a) == StoredAt(st', INDEX, a);
    assert forall a :: StoredAt(st, VIDEO, a) == StoredAt(st', VIDEO, a);
    assert forall a :: StoredAt(st, VIEWER, a) == StoredAt(st', VIEWER, a);
    SameEntries(st, st');
  }

  lemma SameEntries(st: Store, st': Store)
    requires forall a :: StoredAt(st, LEASE, a) == StoredAt(st', LEASE, a)
    requires forall a :: StoredAt(st, INDEX, a) == StoredAt(st', INDEX, a)
    requires forall a :: StoredAt(st, VIDEO, a) == StoredAt(st', VIDEO, a)
    requires forall a :: StoredAt(st, VIEWER, a) == StoredAt(st', VIEWER, a)
    ensures st == st'
  {
    forall a ensures At(st.lease, a) == At(st'.lease, a) { assert StoredAt(st, LEASE, a) == StoredAt(st', LEASE, a); }
    assert st.lease == st'.lease by { SameMap(st.lease, st'.lease); }
    forall a ensures At(st.index, a) == At(st'.index, a) { assert StoredAt(st, INDEX, a) == StoredAt(st', INDEX, a); }
    assert st.index == st'.index by { SameMap(st.index, st'.index); }
    forall a ensures At(st.video, a) == At(st'.video, a) { assert StoredAt(st, VIDEO, a) == StoredAt(st', VIDEO, a); }
    assert st.video == st'.video by { SameMap(st.video, st'.video); }
    forall a ensures At(st.viewer, a) == At(st'.viewer, a) { assert StoredAt(st, VIEWER, a) == StoredAt(st', VIEWER, a); }
    assert st.viewer == st'.viewer by { SameMap(st.viewer, st'.viewer); }
  }

  lemma SameMap<T>(m: map<string, Entry<T>>, n: map<string, Entry<T>>)
    requires forall a :: At(m, a) == At(n, a)
    ensures m == n
  {
    forall a ensures a in m <==> a in n { assert At(m, a) == At(n, a); }
    forall a | a in m ensures m[a] == n[a] { assert At(m, a) == At(n, a); }
  }

  // The map-level meaning of SET on one key.
  function Put(st: Store, p: string, a: string, e: Entry<Payload>): Store
    requires IsPrefix(p) && Fits(p, e.value)
  {
    if p == LEASE then st.(lease := st.lease[a := Entry(e.value.session, e.deadline)])
    else if p == INDEX then st.(index := st.index[a := Entry(e.value.text, e.deadline)])
    else if p == VIDEO then st.(video := st.video[a := Entry(e.value.video, e.deadline)])
    else st.(viewer := st.viewer[a := Entry(e.value.text, e.deadline)])
  }

  // The map-level meaning of DEL on one key.
  function Drop(st: Store, p: string, a: string): Store
    requires IsPrefix(p)
  {
    if p == LEASE then st.(lease := st.lease - {a})
    else if p == INDEX then st.(index := st.index - {a})
    else if p == VIDEO then st.(video := st.video - {a})
    else st.(viewer := st.viewer - {a})
  }

  // SET on the flat keyspace changes one entry of one of the four maps and frames the other three.
  lemma SetRefines(db: Db, st: Store, p: string, a: string, e: Entry<Payload>)
    requires Represents(db, st) && IsPrefix(p) && Fits(p, e.value)
    ensures Represents(db[p + a := e], Put(st, p, a, e))
  {
    forall q, b | IsPrefix(q) ensures At(db[p + a := e], q + b) == StoredAt(Put(st, p, a, e), q, b) {
      KeysNeverCollide(p, a, q, b);
      assert At(db, q + b) == StoredAt(st, q, b);
    }
  }

  lemma DelRefines(db: Db, st: Store, p: string, a: string)
    requires Represents(db, st) && IsPrefix(p)
    ensures Represents(db - {p + a}, Drop(st, p, a))
  {
    forall q, b | IsPrefix(q) ensures At(db - {p + a}, q + b) == StoredAt(Drop(st, p, a), q, b) {
      KeysNeverCollide(p, a, q, b);
      assert At(db, q + b) == StoredAt(st, q, b);
    }
  }
}
