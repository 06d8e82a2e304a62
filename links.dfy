/**
 * The `links` table and the statements the handlers run against it. The
 * relational store is modelled as a class holding a map from short code to
 * row; each statement is one method or function of the class, and a store
 * error is an explicit `fault` input.
 */
module Links {
  import opened Wrappers
  import opened Json
  import ShortCode

  /** The value `CURRENT_TIMESTAMP` had when a statement ran: an opaque clock reading. */
  type Timestamp = nat

  /** One row of the `links` table. */
  datatype Link = Link(
    short_code: string,
    original_url: string,
    description: Option<string>,
    is_enabled: int,
    created_at: Timestamp,
    last_visited_at: Option<Timestamp>,
    visit_count: nat)

  /**
   * The row an `INSERT INTO links (short_code, original_url, description,
   * is_enabled)` creates; the other columns take the schema's defaults.
   */
  function NewRow(code: string, url: string, description: Option<string>, enabled: int, now: Timestamp): (l: Link)
    ensures l.short_code == code && l.original_url == url && l.description == description
    ensures l.is_enabled == enabled && l.created_at == now
    ensures l.visit_count == 0 && l.last_visited_at == None
  {
    Link(code, url, description, enabled, now, None, 0)
  }

  /** The columns a dynamic `UPDATE links SET ...` assigns; an absent field is left out of the SET list. */
  datatype Patch = Patch(url: Field<string>, is_enabled: Field<int>, description: Field<Option<string>>)

  /** The row after the UPDATE: the present columns take the patch's values, every other column keeps its own. */
  function ApplyPatch(l: Link, p: Patch): (r: Link)
    ensures r.original_url == (if p.url.Present? then p.url.value else l.original_url)
    ensures r.is_enabled == (if p.is_enabled.Present? then p.is_enabled.value else l.is_enabled)
    ensures r.description == (if p.description.Present? then p.description.value else l.description)
    ensures r.short_code == l.short_code && r.created_at == l.created_at
    ensures r.last_visited_at == l.last_visited_at && r.visit_count == l.visit_count
  {
    var l1 := if p.url.Present? then l.(original_url := p.url.value) else l;
    var l2 := if p.is_enabled.Present? then l1.(is_enabled := p.is_enabled.value) else l1;
    if p.description.Present? then l2.(description := p.description.value) else l2
  }

  /**
   * The row after `SET last_visited_at = CURRENT_TIMESTAMP, visit_count =
   * visit_count + 1`: one more visit, stamped `now`, nothing else touched.
   */
  function Visit(l: Link, now: Timestamp): (r: Link)
    ensures r.visit_count == l.visit_count + 1 && r.last_visited_at == Some(now)
    ensures r.short_code == l.short_code && r.original_url == l.original_url
    ensures r.description == l.description && r.is_enabled == l.is_enabled
    ensures r.created_at == l.created_at
  {
    l.(visit_count := l.visit_count + 1, last_visited_at := Some(now))
  }

  /** The row after one visit per clock reading, in order. */
  function VisitAll(l: Link, clocks: seq<Timestamp>): Link
  {
    if clocks == [] then l else Visit(VisitAll(l, clocks[..|clocks| - 1]), clocks[|clocks| - 1])
  }

  /**
   * N visits raise the counter by exactly N, record the last clock reading,
   * and leave every other column alone.
   */
  lemma {:induction false} VisitAllCounts(l: Link, clocks: seq<Timestamp>)
    ensures VisitAll(l, clocks).visit_count == l.visit_count + |clocks|
    ensures clocks != [] ==> VisitAll(l, clocks).last_visited_at == Some(clocks[|clocks| - 1])
    ensures clocks == [] ==> VisitAll(l, clocks) == l
    ensures var r := VisitAll(l, clocks);
      r.short_code == l.short_code && r.original_url == l.original_url && r.description == l.description
      && r.is_enabled == l.is_enabled && r.created_at == l.created_at
  {
    if clocks != [] {
      VisitAllCounts(l, clocks[..|clocks| - 1]);
    }
  }

  /**
   * What the handlers keep true of every stored row: the key is the row's
   * code and matches `[a-zA-Z0-9_-]+`, the URL is non-empty and parses, and
   * `is_enabled` is 0 or 1. `urlOk` stands for "`new URL(s)` does not throw".
   */
  predicate RowSound(key: string, l: Link, urlOk: string -> bool) {
    && l.short_code == key
    && ShortCode.MatchesPattern(key)
    && l.original_url != []
    && urlOk(l.original_url)
    && (l.is_enabled == 0 || l.is_enabled == 1)
  }

  ghost predicate Sound(t: map<string, Link>, urlOk: string -> bool) {
    forall k :: k in t ==> RowSound(k, t[k], urlOk)
  }

  /** Storing a sound row under its own key keeps the table sound. */
  lemma SoundInsert(t: map<string, Link>, key: string, row: Link, urlOk: string -> bool)
    requires Sound(t, urlOk) && RowSound(key, row, urlOk)
    ensures Sound(t[key := row], urlOk)
  {
  }

  /** The outcome of an INSERT: the UNIQUE constraint on `short_code` rejects a duplicate. */
  datatype Insertion = Inserted | Duplicate | InsertFailed

  /** The outcome of an UPDATE or DELETE: the number of rows it changed, or a store error. */
  datatype Write = Written(rows: nat) | WriteFailed

  /** The outcome of a SELECT. */
  datatype Read<+T> = Rows(value: T) | ReadFailed

  /** A row of `SELECT short_code FROM links`. */
  datatype CodeRow = CodeRow(short_code: string)

  /** The `links` table, keyed by its primary key `short_code`. */
  class LinkTable {
    var links: map<string, Link>

    /** Every row is stored under its own code. */
    ghost predicate Valid()
      reads this
    {
      forall k :: k in links ==> links[k].short_code == k
    }

    constructor ()
      ensures Valid() && links == map[]
    {
      links := map[];
    }

    /** `SELECT ... FROM links WHERE short_code = ?`: the row under exactly that key, if any. */
    function Select(code: string, fault: bool): (r: Read<Option<Link>>)
      reads this
      requires Valid()
      ensures fault <==> r.ReadFailed?
      ensures r.Rows? ==> (r.value.Some? <==> code in links)
      ensures r.Rows? && r.value.Some? ==> r.value.value == links[code] && r.value.value.short_code == code
    {
      if fault then ReadFailed
      else if code in links then Rows(Some(links[code]))
      else Rows(None)
    }

    /** `INSERT INTO links ... VALUES (?, ?, ?, ?)`: adds a row unless the key is taken. */
    method Insert(code: string, url: string, description: Option<string>, enabled: int, now: Timestamp, fault: bool)
      returns (r: Insertion)
      requires Valid()
      modifies this
      ensures Valid()
      ensures r == (if fault then InsertFailed else if code in old(links) then Duplicate else Inserted)
      ensures r == Inserted ==> links == old(links)[code := NewRow(code, url, description, enabled, now)]
      ensures r != Inserted ==> links == old(links)
    {
      if fault {
        r := InsertFailed;
      } else if code in links {
        r := Duplicate;
      } else {
        links := links[code := NewRow(code, url, description, enabled, now)];
        r := Inserted;
      }
    }

    /** `UPDATE links SET <present columns> WHERE short_code = ?`. */
    method UpdateFields(code: string, patch: Patch, fault: bool) returns (r: Write)
      requires Valid()
      modifies this
      ensures Valid()
      ensures fault ==> r == WriteFailed && links == old(links)
      ensures !fault && code !in old(links) ==> r == Written(0) && links == old(links)
      ensures !fault && code in old(links) ==>
        r == Written(1) && links == old(links)[code := ApplyPatch(old(links)[code], patch)]
    {
      if fault {
        r := WriteFailed;
      } else if code in links {
        links := links[code := ApplyPatch(links[code], patch)];
        r := Written(1);
      } else {
        r := Written(0);
      }
    }

    /** `DELETE FROM links WHERE short_code = ?`. */
    method Delete(code: string, fault: bool) returns (r: Write)
      requires Valid()
      modifies this
      ensures Valid()
      ensures fault ==> r == WriteFailed && links == old(links)
      ensures !fault && code !in old(links) ==> r == Written(0) && links == old(links)
      ensures !fault && code in old(links) ==> r == Written(1) && links == old(links) - {code}
    {
      if fault {
        r := WriteFailed;
      } else if code in links {
        links := links - {code};
        r := Written(1);
      } else {
        r := Written(0);
      }
    }

    /** `UPDATE links SET last_visited_at = CURRENT_TIMESTAMP, visit_count = visit_count + 1 WHERE short_code = ?`. */
    method IncrementVisit(code: string, now: Timestamp, fault: bool) returns (r: Write)
      requires Valid()
      modifies this
      ensures Valid()
      ensures fault ==> r == WriteFailed && links == old(links)
      ensures !fault && code !in old(links) ==> r == Written(0) && links == old(links)
      ensures !fault && code in old(links) ==>
        r == Written(1) && links == old(links)[code := Visit(old(links)[code], now)]
    {
      if fault {
        r := WriteFailed;
      } else if code in links {
        links := links[code := Visit(links[code], now)];
        r := Written(1);
      } else {
        r := Written(0);
      }
    }

    /**
     * `SELECT short_code FROM links`: one row per stored link, each code once.
     * SQL fixes no order, so the rows come in an arbitrary one.
     */
    method SelectCodes(fault: bool) returns (r: Read<seq<CodeRow>>)
      requires Valid()
      ensures fault <==> r.ReadFailed?
      ensures r.Rows? ==> |r.value| == |links|
      ensures r.Rows? ==> forall k :: k in links <==> CodeRow(k) in r.value
      ensures r.Rows? ==> forall i, j :: 0 <= i < j < |r.value| ==> r.value[i] != r.value[j]
    {
      if fault {
        return ReadFailed;
      }
      var rows: seq<CodeRow> := [];
      var remaining := links.Keys;
      while remaining != {}
        invariant remaining <= links.Keys
        invariant forall k :: k in links ==> (k in remaining <==> CodeRow(k) !in rows)
        invariant forall i :: 0 <= i < |rows| ==> rows[i].short_code in links
        invariant forall i, j :: 0 <= i < j < |rows| ==> rows[i] != rows[j]
        invariant |rows| + |remaining| == |links.Keys|
        decreases |remaining|
      {
        var k :| k in remaining;
        rows := rows + [CodeRow(k)];
        remaining := remaining - {k};
      }
      return Rows(rows);
    }
  }
}
