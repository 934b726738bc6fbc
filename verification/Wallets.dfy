/** Voting wallets and the reconciliation of internal/vspm/walletconsistency.go:
    every votable ticket on every wallet, with the vote choices of the database. */
module Wallets {
  import opened Encoding
  import opened Tickets

  type Choices = map<string, string>

  /** A voting wallet as its RPCs show it: the agendas it knows, the tickets it
      holds with their choices, the imported keys and the rescans it was asked for. */
  datatype Wallet = Wallet(agendas: set<string>, tickets: map<string, Choices>, keys: set<string>, rescans: seq<int>)

  /** A wallet only has choices for agendas it knows. */
  ghost predicate Sound(w: Wallet)
  {
    forall h | h in w.tickets :: w.tickets[h].Keys <= w.agendas
  }

  ghost predicate AllSound(ws: seq<Wallet>)
  {
    forall i | 0 <= i < |ws| :: Sound(ws[i])
  }

  /** Calls that fail during a pass, and the points at which the context is found
      cancelled. */
  datatype Fault =
    | NodeDown
    | TicketInfoFails(pass: nat, wallet: nat)
    | RawTxFails(wallet: nat, hash: string)
    | ImportFails(wallet: nat, hash: string)
    | AddTxFails(wallet: nat, hash: string)
    | RescanFails(wallet: nat)
    | SetFails(wallet: nat, hash: string, agenda: string)
    | Cancelled(pass: nat, wallet: nat, ticket: nat)

  // ------------------------------------------------------------ wallet RPCs

  /** ticketinfo lists the tickets mined at or above a height. */
  function TicketInfo(w: Wallet, startHeight: int, heightOf: string -> int64): map<string, Choices>
  {
    map h | h in w.tickets && heightOf(h) >= startHeight :: w.tickets[h]
  }

  function ImportKey(w: Wallet, wif: string): Wallet
  {
    w.(keys := w.keys + {wif})
  }

  /** addtransaction; a ticket the wallet has is left alone. */
  function AddTx(w: Wallet, hash: string): Wallet
  {
    if hash in w.tickets then w else w.(tickets := w.tickets[hash := map[]])
  }

  /** setvotechoice; None is the "no agenda with ID" error. */
  function SetVoteChoice(w: Wallet, agenda: string, choice: string, hash: string): Option<Wallet>
    requires hash in w.tickets
  {
    if agenda in w.agendas then Some(w.(tickets := w.tickets[hash := w.tickets[hash][agenda := choice]])) else None
  }

  // ------------------------------------- the map that copied tickets share

  /** A Go map: copying a ticket struct copies the reference. */
  class ChoiceMap {
    var entries: Choices

    constructor (entries: Choices)
      ensures this.entries == entries
    {
      this.entries := entries;
    }
  }

  /** A ticket struct; the map stands in for the record's own vote choices. */
  datatype DbTicket = DbTicket(record: Ticket, choices: ChoiceMap)

  function WithEntries(t: Ticket, entries: Choices): Ticket
  {
    t.(voteChoices := GoMap(entries))
  }

  method Unmarshal(ts: seq<Ticket>) returns (vs: seq<DbTicket>)
    ensures |vs| == |ts| && NoSharing(vs)
    ensures forall j | 0 <= j < |vs| :: vs[j].record == ts[j] && fresh(vs[j].choices)
    ensures forall j | 0 <= j < |vs| :: vs[j].choices.entries == ts[j].voteChoices.Entries()
  {
    vs := [];
    for i := 0 to |ts|
      invariant |vs| == i && NoSharing(vs)
      invariant forall j | 0 <= j < i :: vs[j].record == ts[j] && fresh(vs[j].choices)
      invariant forall j | 0 <= j < i :: vs[j].choices.entries == ts[j].voteChoices.Entries()
    {
      var choices := new ChoiceMap(ts[i].voteChoices.Entries());
      vs := vs + [DbTicket(ts[i], choices)];
    }
  }

  ghost predicate NoSharing(vs: seq<DbTicket>)
  {
    forall i, j | 0 <= i < j < |vs| :: vs[i].choices != vs[j].choices
  }

  ghost function Maps(vs: seq<DbTicket>): set<ChoiceMap>
  {
    set v | v in vs :: v.choices
  }

  // ------------------------------------------------- one wallet, one ticket

  /** What is left of the choices once the agendas outside `todo` were handled: an
      agenda the wallet does not know goes, unless the call failed otherwise. */
  ghost function Left(c: Choices, known: set<string>, failing: set<string>, todo: set<string>): Choices
  {
    map a | a in c && (a in todo || a in known || a in failing) :: c[a]
  }

  ghost function Pushed(c: Choices, known: set<string>, failing: set<string>, todo: set<string>): Choices
  {
    map a | a in c && a !in todo && a in known && a !in failing :: c[a]
  }

  ghost function Failing(down: set<Fault>, i: nat, h: string, c: Choices): set<string>
  {
    set a | a in c && SetFails(i, h, a) in down
  }

  /** The database still has the record with the choices the structs share, or,
      when it refuses writes for the ticket, the record as it was read. */
  ghost predicate InStep(db: Db, broken: set<string>, t: Ticket, entries: Choices)
  {
    && t.hash in db
    && db[t.hash] == if t.hash in broken then t else WithEntries(t, entries)
  }

  /** internal/vspm/walletconsistency.go:147-152. */
  method HasChoice(choices: Choices, agenda: string, choice: string) returns (found: bool)
    ensures found <==> agenda in choices && choices[agenda] == choice
  {
    found := false;
    var todo := choices.Keys;
    while todo != {}
      invariant todo <= choices.Keys
      invariant found <==> agenda in choices && agenda !in todo && choices[agenda] == choice
      decreases |todo|
    {
      var a :| a in todo;
      todo := todo - {a};
      if a == agenda && choices[a] == choice {
        found := true;
      }
    }
  }

  lemma HandleAgenda(c: Choices, known: set<string>, failing: set<string>, todo: set<string>, a: string)
    requires a in c && a in todo
    ensures a in Left(c, known, failing, todo) && Left(c, known, failing, todo)[a] == c[a]
    ensures a !in Pushed(c, known, failing, todo)
    ensures Left(c, known, failing, todo - {a})
         == if a in known || a in failing then Left(c, known, failing, todo) else Left(c, known, failing, todo) - {a}
    ensures Pushed(c, known, failing, todo - {a})
         == if a in known && a !in failing then Pushed(c, known, failing, todo)[a := c[a]]
           else Pushed(c, known, failing, todo)
  {
  }

  lemma NothingHandled(c: Choices, known: set<string>, failing: set<string>)
    ensures Left(c, known, failing, c.Keys) == c && Pushed(c, known, failing, c.Keys) == map[]
  {
  }

  ghost function Synced(w: Wallet, h: string, pushed: Choices): Wallet
    requires h in w.tickets
  {
    w.(tickets := w.tickets[h := w.tickets[h] + pushed])
  }

  // ----------------------------------------------- one wallet, all tickets

  ghost function Hashes(ts: seq<Ticket>): set<string>
  {
    set t | t in ts :: t.hash
  }

  /** The structs read from the database: one per ticket, each with its own map,
      holding `cs` at the moment. */
  ghost predicate Holds(vs: seq<DbTicket>, ts: seq<Ticket>, cs: seq<Choices>)
    reads Maps(vs)
  {
    && |vs| == |ts| == |cs| && NoSharing(vs)
    && forall j | 0 <= j < |vs| :: vs[j].record == ts[j] && vs[j].choices in Maps(vs) && vs[j].choices.entries == cs[j]
  }

  /** Nothing but the listed tickets changed, and their records are in step. */
  ghost predicate Tracks(before: Db, db: Db, broken: set<string>, ts: seq<Ticket>, cs: seq<Choices>)
  {
    && |ts| == |cs| && db.Keys == before.Keys
    && (forall j | 0 <= j < |ts| :: InStep(db, broken, ts[j], cs[j]))
    && forall h | h in before && h !in Hashes(ts) :: db[h] == before[h]
  }

  /** The ticket is among those the wallet is asked for. */
  predicate Listed(w: Wallet, h: string, heightOf: string -> int64, oldest: int)
  {
    h in w.tickets && heightOf(h) >= oldest
  }

  /** The second pass over one wallet, after `upto` tickets. */
  ghost predicate WalletPass(down: set<Fault>, i: nat, heightOf: string -> int64, oldest: int, ts: seq<Ticket>,
                             upto: nat,
                             w: Wallet, w': Wallet, cs: seq<Choices>, cs': seq<Choices>)
  {
    && |cs| == |cs'| == |ts|
    && w' == w.(tickets := w'.tickets) && w'.tickets.Keys == w.tickets.Keys
    && (forall j | 0 <= j < |ts| :: TicketPass(down, i, heightOf, oldest, ts[j].hash, j < upto, w, w', cs[j], cs'[j]))
    && forall h | h in w.tickets && h !in Hashes(ts) :: w'.tickets[h] == w.tickets[h]
  }

  ghost predicate TicketPass(down: set<Fault>, i: nat, heightOf: string -> int64, oldest: int, h: string, handled: bool,
                             w: Wallet, w': Wallet, c: Choices, c': Choices)
    requires w'.tickets.Keys == w.tickets.Keys
  {
    var failing := Failing(down, i, h, c);
    var reached := handled && Listed(w, h, heightOf, oldest);
    && c' == (if reached then Left(c, w.agendas, failing, {}) else c)
    && (h in w.tickets ==>
          w'.tickets[h] == if reached then w.tickets[h] + Pushed(c, w.agendas, failing, {}) else w.tickets[h])
  }

  lemma PassBegins(down: set<Fault>, i: nat, heightOf: string -> int64, oldest: int, ts: seq<Ticket>, w: Wallet,
                   cs: seq<Choices>)
    requires |cs| == |ts|
    ensures WalletPass(down, i, heightOf, oldest, ts, 0, w, w, cs, cs)
  {
  }

  /** An unlisted ticket is passed over. */
  lemma PassSkips(down: set<Fault>, i: nat, heightOf: string -> int64, oldest: int, ts: seq<Ticket>, upto: nat,
                  w: Wallet, w': Wallet, cs: seq<Choices>, cs': seq<Choices>)
    requires WalletPass(down, i, heightOf, oldest, ts, upto, w, w', cs, cs')
    requires upto < |ts| && !Listed(w, ts[upto].hash, heightOf, oldest)
    ensures WalletPass(down, i, heightOf, oldest, ts, upto + 1, w, w', cs, cs')
  {
    forall j | 0 <= j < |ts|
      ensures TicketPass(down, i, heightOf, oldest, ts[j].hash, j < upto + 1, w, w', cs[j], cs'[j])
    {
      assert TicketPass(down, i, heightOf, oldest, ts[j].hash, j < upto, w, w', cs[j], cs'[j]);
    }
    hide TicketPass;
  }

  lemma PassSyncs(down: set<Fault>, i: nat, heightOf: string -> int64, oldest: int, ts: seq<Ticket>, upto: nat,
                  w: Wallet, w': Wallet, cs: seq<Choices>, cs': seq<Choices>)
    requires WalletPass(down, i, heightOf, oldest, ts, upto, w, w', cs, cs')
    requires DistinctHashes(ts) && upto < |ts| && Listed(w, ts[upto].hash, heightOf, oldest)
    ensures ts[upto].hash in w'.tickets && w'.tickets[ts[upto].hash] == w.tickets[ts[upto].hash]
            && cs'[upto] == cs[upto]
    ensures var h, c := ts[upto].hash, cs[upto];
            var failing := Failing(down, i, h, c);
            WalletPass(down, i, heightOf, oldest, ts, upto + 1, w, Synced(w', h, Pushed(c, w.agendas, failing, {})),
                       cs, cs'[upto := Left(c, w.agendas, failing, {})])
  {
    hide Left, Pushed, Failing;
    var h, c := ts[upto].hash, cs[upto];
    var failing := Failing(down, i, h, c);
    assert TicketPass(down, i, heightOf, oldest, h, false, w, w', c, cs'[upto]);
    var after, cs1 := Synced(w', h, Pushed(c, w.agendas, failing, {})), cs'[upto := Left(c, w.agendas, failing, {})];
    forall j | 0 <= j < |ts|
      ensures TicketPass(down, i, heightOf, oldest, ts[j].hash, j < upto + 1, w, after, cs[j], cs1[j])
    {
      assert TicketPass(down, i, heightOf, oldest, ts[j].hash, j < upto, w, w', cs[j], cs'[j]);
    }
    assert h in Hashes(ts);
    hide TicketPass;
  }

  lemma TracksOne(before: Db, db: Db, db': Db, broken: set<string>, ts: seq<Ticket>, cs: seq<Choices>, j: nat,
                  c: Choices)
    requires Tracks(before, db, broken, ts, cs) && DistinctHashes(ts) && j < |ts|
    requires InStep(db', broken, ts[j], c) && db' == db[ts[j].hash := db'[ts[j].hash]]
    ensures Tracks(before, db', broken, ts, cs[j := c])
  {
    assert ts[j].hash in Hashes(ts);
    forall k | 0 <= k < |ts| ensures InStep(db', broken, ts[k], cs[j := c][k]) {
      assert InStep(db, broken, ts[k], cs[k]);
      assert k < j ==> ts[k].hash != ts[j].hash;
      assert j < k ==> ts[k].hash != ts[j].hash;
    }
  }

  // -------------------------------------------------- adding missing tickets

  ghost predicate Imported(down: set<Fault>, i: nat, info: set<string>, t: Ticket)
  {
    t.hash !in info && RawTxFails(i, t.hash) !in down && ImportFails(i, t.hash) !in down
  }

  ghost function NewKeys(down: set<Fault>, i: nat, info: set<string>, ts: seq<Ticket>): set<string>
  {
    set t | t in ts && Imported(down, i, info, t) :: t.votingWIF
  }

  ghost function NewHashes(down: set<Fault>, i: nat, info: set<string>, ts: seq<Ticket>): set<string>
  {
    set t | t in ts && Imported(down, i, info, t) && AddTxFails(i, t.hash) !in down :: t.hash
  }

  ghost function WithTickets(w: Wallet, hashes: set<string>, keys: set<string>): Wallet
  {
    w.(tickets := map h | h in w.tickets.Keys + hashes :: if h in w.tickets then w.tickets[h] else map[],
       keys := w.keys + keys)
  }

  ghost predicate IsMinHeight(heightOf: string -> int64, hashes: set<string>, m: int)
  {
    && (exists h | h in hashes :: heightOf(h) == m)
    && forall h | h in hashes :: m <= heightOf(h)
  }

  /** The first pass over one wallet: missing tickets added under their keys, and
      one rescan from the least block height added. */
  ghost predicate AddPass(down: set<Fault>, i: nat, heightOf: string -> int64, oldest: int, ts: seq<Ticket>,
                          w: Wallet, w': Wallet)
  {
    var info := TicketInfo(w, oldest, heightOf).Keys;
    if TicketInfoFails(1, i) in down then w' == w
    else
      var hashes := NewHashes(down, i, info, ts);
      var after := WithTickets(w, hashes, NewKeys(down, i, info, ts));
      if hashes == {} || RescanFails(i) in down then w' == after
      else
        exists m: int :: Rescanned(heightOf, hashes, after, w', m)
  }

  /** One more rescan; a block height of zero would have been lost on the way. */
  ghost predicate Rescanned(heightOf: string -> int64, hashes: set<string>, w: Wallet, w': Wallet, m: int)
  {
    && w' == w.(rescans := w.rescans + [m])
    && ((forall h | h in hashes :: heightOf(h) != 0) ==> IsMinHeight(heightOf, hashes, m))
  }

  /** The first pass on one wallet, call by call: a listed ticket is left alone, and a
      missing one is on the wallet if none of the calls for it failed; its key is
      there if the transaction was found and the key taken. */
  lemma AddPassMeans(down: set<Fault>, i: nat, heightOf: string -> int64, oldest: int, ts: seq<Ticket>,
                     w: Wallet, w': Wallet, t: Ticket)
    requires AddPass(down, i, heightOf, oldest, ts, w, w') && DistinctHashes(ts) && t in ts
    requires TicketInfoFails(1, i) !in down
    ensures var h := t.hash;
            var missing := !(h in w.tickets && heightOf(h) >= oldest);
            && (h in w'.tickets <==>
                  || h in w.tickets
                  || (RawTxFails(i, h) !in down && ImportFails(i, h) !in down && AddTxFails(i, h) !in down))
            && (h in w.tickets ==> h in w'.tickets && w'.tickets[h] == w.tickets[h])
            && (missing && RawTxFails(i, h) !in down && ImportFails(i, h) !in down ==> t.votingWIF in w'.keys)
            && (t.votingWIF in w'.keys ==>
                  || t.votingWIF in w.keys
                  || exists u | u in ts ::
                       u.votingWIF == t.votingWIF && !(u.hash in w.tickets && heightOf(u.hash) >= oldest)
                                           && RawTxFails(i, u.hash) !in down && ImportFails(i, u.hash) !in down)
  {
    var info := TicketInfo(w, oldest, heightOf).Keys;
    var hashes := NewHashes(down, i, info, ts);
    assert w'.tickets == WithTickets(w, hashes, NewKeys(down, i, info, ts)).tickets;
    assert w'.keys == w.keys + NewKeys(down, i, info, ts);
    hide AddPass, Rescanned;
    if t.hash in hashes {
      var u :| u in ts && Imported(down, i, info, u) && AddTxFails(i, u.hash) !in down && u.hash == t.hash;
    }
  }

  /** The second pass on one ticket a wallet lists, agenda by agenda: an agenda it does not
      know leaves the choices unless the call failed otherwise, and one it knows is set
      unless the call failed. */
  lemma TicketPassMeans(down: set<Fault>, i: nat, heightOf: string -> int64, oldest: int, h: string,
                        w: Wallet, w': Wallet, c: Choices, c': Choices, a: string)
    requires w'.tickets.Keys == w.tickets.Keys && h in w.tickets && heightOf(h) >= oldest
    requires TicketPass(down, i, heightOf, oldest, h, true, w, w', c, c')
    ensures a in c' <==> a in c && (a in w.agendas || SetFails(i, h, a) in down)
    ensures a in c' ==> c'[a] == c[a]
    ensures if a in c && a in w.agendas && SetFails(i, h, a) !in down
            then a in w'.tickets[h] && w'.tickets[h][a] == c[a]
            else
              && (a in w'.tickets[h] <==> a in w.tickets[h])
              && (a in w'.tickets[h] ==> w'.tickets[h][a] == w.tickets[h][a])
  {
  }

  lemma NoNewOnes(down: set<Fault>, i: nat, info: set<string>, w: Wallet)
    ensures NewKeys(down, i, info, []) == {} && NewHashes(down, i, info, []) == {}
    ensures WithTickets(w, {}, {}) == w
  {
    assert WithTickets(w, {}, {}).tickets == w.tickets;
  }

  lemma NewOnes(down: set<Fault>, i: nat, info: set<string>, ts: seq<Ticket>, t: Ticket)
    ensures NewKeys(down, i, info, ts + [t])
         == if Imported(down, i, info, t) then NewKeys(down, i, info, ts) + {t.votingWIF}
           else NewKeys(down, i, info, ts)
    ensures NewHashes(down, i, info, ts + [t])
         == if Imported(down, i, info, t) && AddTxFails(i, t.hash) !in down then NewHashes(down, i, info, ts) + {t.hash}
            else NewHashes(down, i, info, ts)
  {
  }

  lemma LowerMin(heightOf: string -> int64, hashes: set<string>, m: int, h: string)
    requires forall k | k in hashes + {h} :: heightOf(k) != 0
    requires if hashes == {} then m == 0 else IsMinHeight(heightOf, hashes, m)
    ensures IsMinHeight(heightOf, hashes + {h}, if m == 0 || m > heightOf(h) then heightOf(h) else m)
  {
  }

  lemma OneMoreTicket(w: Wallet, hashes: set<string>, keys: set<string>, t: Ticket)
    ensures ImportKey(WithTickets(w, hashes, keys), t.votingWIF) == WithTickets(w, hashes, keys + {t.votingWIF})
    ensures AddTx(WithTickets(w, hashes, keys), t.hash) == WithTickets(w, hashes + {t.hash}, keys)
  {
    assert AddTx(WithTickets(w, hashes, keys), t.hash).tickets == WithTickets(w, hashes + {t.hash}, keys).tickets;
  }

  // ------------------------------------------------------- the whole pass

  /** The first pass over the first n wallets. */
  ghost predicate FirstPass(down: set<Fault>, heightOf: string -> int64, oldest: int, ts: seq<Ticket>,
                            ws: seq<Wallet>, ws': seq<Wallet>, n: nat)
  {
    && n <= |ws'| == |ws|
    && (forall k | 0 <= k < n :: AddPass(down, k, heightOf, oldest, ts, ws[k], ws'[k]))
    && forall k | n <= k < |ws| :: ws'[k] == ws[k]
  }

  /** The second pass over the first |uptos| wallets; `css` are the choices before
      each of them and at the end. */
  ghost predicate SecondPass(down: set<Fault>, heightOf: string -> int64, oldest: int, ts: seq<Ticket>,
                             ws: seq<Wallet>, ws': seq<Wallet>, css: seq<seq<Choices>>, uptos: seq<nat>)
  {
    && |ws'| == |ws| && |uptos| <= |ws| && |css| == |uptos| + 1
    && (forall k | 0 <= k < |uptos| ::
         WalletPass(down, k, heightOf, oldest, ts, uptos[k], ws[k], ws'[k], css[k], css[k + 1]))
    && forall k | |uptos| <= k < |ws| :: ws'[k] == ws[k]
  }

  /** How many tickets the second pass goes through on a wallet, unless cancelled. */
  ghost function Reached(down: set<Fault>, k: nat, size: nat): nat
  {
    if TicketInfoFails(2, k) in down then 0 else size
  }

  /** It goes through all wallets, and on each through all tickets if the wallet lists
      them, unless it is cancelled before a wallet or on the last one it came to. */
  ghost predicate EndedBecause(down: set<Fault>, wallets: nat, size: nat, uptos: seq<nat>)
  {
    var last := |uptos| - 1;
    && |uptos| <= wallets
    && (forall k | 0 <= k < last :: uptos[k] == Reached(down, k, size))
    && if last >= 0 && uptos[last] != Reached(down, last, size)
       then uptos[last] < size && Cancelled(2, last, uptos[last]) in down
       else |uptos| == wallets || Cancelled(2, |uptos|, 0) in down
  }

  ghost function StoredChoices(ts: seq<Ticket>): (cs: seq<Choices>)
    ensures |cs| == |ts| && forall j | 0 <= j < |ts| :: cs[j] == ts[j].voteChoices.Entries()
  {
    seq(|ts|, j requires 0 <= j < |ts| => ts[j].voteChoices.Entries())
  }

  class VotingWallets {
    const db: TicketStore
    var wallets: seq<Wallet>

    constructor (db: TicketStore, wallets: seq<Wallet>)
      ensures this.db == db && this.wallets == wallets
    {
      this.db := db;
      this.wallets := wallets;
    }

    method CheckWalletConsistency(heightOf: string -> int64, down: set<Fault>)
      returns (ghost ts: seq<Ticket>, ghost oldest: int, ghost ws1: seq<Wallet>, ghost added: nat,
               ghost css: seq<seq<Choices>>, ghost uptos: seq<nat>)
      requires db.Valid() && AllSound(wallets)
      modifies this`wallets, db`tickets
      ensures db.Valid()
      ensures SafePass(ts, old(db.tickets), db.tickets, old(wallets), wallets)
      ensures ts == [] || (Lists(old(db.tickets), Votable, ts) && IsEarliest(ts, oldest))
      ensures NodeDown !in down && old(wallets) != [] ==> Lists(old(db.tickets), Votable, ts)
      ensures ts == [] ==> wallets == old(wallets) && db.tickets == old(db.tickets)
      ensures ts != [] ==>
                && FirstPass(down, heightOf, oldest, ts, old(wallets), ws1, added)
                && if added < |ws1|
                   then Cancelled(1, added, 0) in down && wallets == ws1 && db.tickets == old(db.tickets)
                   else && SecondPass(down, heightOf, oldest, ts, ws1, wallets, css, uptos)
                        && css[0] == StoredChoices(ts) && EndedBecause(down, |wallets|, |ts|, uptos)
                        && Tracks(old(db.tickets), db.tickets, db.broken, ts, css[|uptos|])
      ensures down == {} && db.broken == {} && wallets != [] ==>
                && Lists(old(db.tickets), Votable, ts)
                && Reconciled(heightOf, oldest, ts, old(db.tickets), db.tickets, old(wallets), wallets)
    {
      hide SafePass, Reconciled, WellFiled, Lists, Votable, AllSound, Listing, FirstPass, SecondPass, Tracks,
           IsEarliest, StoredChoices, EndedBecause;
      ts, oldest, ws1, added, css, uptos := [], 0, wallets, 0, [], [];
      NothingDone(db.tickets, wallets);
      if NodeDown in down {
        return;
      }
      if |wallets| == 0 {
        return;
      }
      ghost var before, ws := db.tickets, wallets;
      var votable := db.FilterTickets(Votable);
      if |votable| == 0 {
        NothingVotable(heightOf, before, ws);
        return;
      }
      ts := votable;
      var oldestHeight := EarliestPurchaseHeight(votable);
      oldest := oldestHeight;
      EarliestIs(votable, oldestHeight);
      ListedFacts(before, votable);
      var vs := Unmarshal(votable);
      var stop;
      stop, added := AddEverywhere(votable, heightOf, oldestHeight, down);
      FirstPassIsSafe(down, heightOf, oldest, ts, ws, wallets, added, before);
      ws1 := wallets;
      if stop {
        return;
      }
      SoundAfterAdding(down, heightOf, oldest, ts, ws, ws1);
      css, uptos := SyncEverywhere(vs, ts, heightOf, oldestHeight, down);
      BothPassesAreSafe(down, heightOf, oldest, ts, ws, ws1, wallets, css, uptos, before, db.tickets, db.broken);
      if down == {} && db.broken == {} {
        BothPassesReconcile(heightOf, oldest, ts, ws, ws1, wallets, css, uptos, before, db.tickets);
      }
    }

    /** Step 1, walletconsistency.go:53-111. */
    method AddEverywhere(votable: seq<Ticket>, heightOf: string -> int64, oldest: int, down: set<Fault>)
      returns (stop: bool, ghost n: nat)
      modifies this`wallets
      ensures FirstPass(down, heightOf, oldest, votable, old(wallets), wallets, n)
      ensures |wallets| == |old(wallets)| && (!stop ==> n == |wallets|)
      ensures stop ==> n < |wallets| && Cancelled(1, n, 0) in down
    {
      hide AddPass;
      ghost var ws := wallets;
      for i := 0 to |wallets|
        invariant |wallets| == |ws| && FirstPass(down, heightOf, oldest, votable, ws, wallets, i)
      {
        if Cancelled(1, i, 0) in down {
          return true, i;
        }
        AddMissing(i, votable, heightOf, oldest, down);
      }
      return false, |wallets|;
    }

    /** Step 2, walletconsistency.go:116-184. */
    method SyncEverywhere(vs: seq<DbTicket>, ghost ts: seq<Ticket>, heightOf: string -> int64, oldest: int,
                          down: set<Fault>)
      returns (ghost css: seq<seq<Choices>>, ghost uptos: seq<nat>)
      requires db.Valid() && AllSound(wallets) && Listing(db.tickets, ts) && Holds(vs, ts, StoredChoices(ts))
      modifies this`wallets, db`tickets, Maps(vs)
      ensures db.Valid()
      ensures SecondPass(down, heightOf, oldest, ts, old(wallets), wallets, css, uptos)
      ensures |wallets| == |old(wallets)| && |css| == |uptos| + 1
      ensures css[0] == StoredChoices(ts) && Tracks(old(db.tickets), db.tickets, db.broken, ts, css[|uptos|])
      ensures EndedBecause(down, |wallets|, |ts|, uptos)
      ensures down == {} ==> |uptos| == |wallets| && forall k | 0 <= k < |uptos| :: uptos[k] == |ts|
    {
      hide WalletPass, Tracks, WellFiled, StoredChoices, Normal, Sound, Listing;
      ghost var before, ws := db.tickets, wallets;
      css, uptos := [StoredChoices(ts)], [];
      TracksInitially(before, db.broken, ts);
      NormalTickets(before, ts);
      for i := 0 to |wallets|
        invariant |wallets| == |ws| && |uptos| == i
        invariant SecondPass(down, heightOf, oldest, ts, ws, wallets, css, uptos)
        invariant css[0] == StoredChoices(ts) && forall k | 0 <= k < i :: uptos[k] == Reached(down, k, |ts|)
        invariant db.Valid() && Holds(vs, ts, css[i]) && Tracks(before, db.tickets, db.broken, ts, css[i])
      {
        if Cancelled(2, i, 0) in down {
          return;
        }
        var stop;
        ghost var upto, cs';
        assert wallets[i] == ws[i] && Sound(ws[i]);
        ghost var ws0 := wallets;
        stop, upto, cs' := SyncWallet(i, vs, ts, heightOf, oldest, down, before, css[i]);
        OneMoreWallet(down, heightOf, oldest, ts, ws, ws0, css, uptos, wallets, cs', upto);
        css, uptos := css + [cs'], uptos + [upto];
        if stop {
          return;
        }
      }
    }

    /** walletconsistency.go:60-110 for one wallet. */
    method AddMissing(i: nat, ts: seq<Ticket>, heightOf: string -> int64, oldest: int, down: set<Fault>)
      requires i < |wallets|
      modifies this`wallets
      ensures |wallets| == |old(wallets)| && wallets == old(wallets)[i := wallets[i]]
      ensures AddPass(down, i, heightOf, oldest, ts, old(wallets[i]), wallets[i])
    {
      hide NewHashes, NewKeys, WithTickets, IsMinHeight;
      assert wallets[i := wallets[i]] == wallets;
      if TicketInfoFails(1, i) in down {
        return;
      }
      var walletTickets := TicketInfo(wallets[i], oldest, heightOf);
      var added, minHeight := AddTickets(i, ts, walletTickets, heightOf, down);
      if added {
        if RescanFails(i) in down {
          return;
        }
        ghost var hashes, before := NewHashes(down, i, walletTickets.Keys, ts), wallets[i];
        wallets := wallets[i := wallets[i].(rescans := wallets[i].rescans + [minHeight])];
        assert Rescanned(heightOf, hashes, before, wallets[i], minHeight);
      }
    }

    method AddTickets(i: nat, ts: seq<Ticket>, walletTickets: map<string, Choices>, heightOf: string -> int64,
                      down: set<Fault>)
      returns (added: bool, minHeight: int)
      requires i < |wallets|
      modifies this`wallets
      ensures var hashes := NewHashes(down, i, walletTickets.Keys, ts);
              && wallets == old(wallets)[i := WithTickets(old(wallets[i]), hashes,
                                                          NewKeys(down, i, walletTickets.Keys, ts))]
              && (added <==> hashes != {})
              && (added && (forall h | h in hashes :: heightOf(h) != 0) ==> IsMinHeight(heightOf, hashes, minHeight))
    {
      hide NewHashes, NewKeys, WithTickets, IsMinHeight;
      assert wallets[i := wallets[i]] == wallets;
      ghost var w, info := wallets[i], walletTickets.Keys;
      added, minHeight := false, 0;
      ghost var hashes, keys: set<string> := {}, {};
      NoNewOnes(down, i, info, w);
      assert ts[..0] == [];
      for j := 0 to |ts|
        invariant hashes == NewHashes(down, i, info, ts[..j]) && keys == NewKeys(down, i, info, ts[..j])
        invariant |wallets| == |old(wallets)| && wallets == old(wallets)[i := WithTickets(w, hashes, keys)]
        invariant added <==> hashes != {}
        invariant !added ==> minHeight == 0
        invariant added && (forall h | h in hashes :: heightOf(h) != 0) ==> IsMinHeight(heightOf, hashes, minHeight)
      {
        var t := ts[j];
        assert ts[..j + 1] == ts[..j] + [t];
        NewOnes(down, i, info, ts[..j], t);
        OneMoreTicket(w, hashes, keys, t);
        OneMoreTicket(w, hashes, keys + {t.votingWIF}, t);
        ghost var before := hashes;
        hashes, keys := NewHashes(down, i, info, ts[..j + 1]), NewKeys(down, i, info, ts[..j + 1]);
        if t.hash in walletTickets {
          continue;
        }
        if RawTxFails(i, t.hash) in down {
          continue;
        }
        var blockHeight := heightOf(t.hash);
        var ok := AddTicketForVoting(i, t, down);
        if !ok {
          continue;
        }
        if forall k | k in hashes :: heightOf(k) != 0 {
          LowerMin(heightOf, before, minHeight, t.hash);
        }
        added := true;
        if minHeight == 0 || minHeight > blockHeight {
          minHeight := blockHeight;
        }
      }
      assert ts[..|ts|] == ts;
    }

    /** importprivkey, then addtransaction: rpc/monwallet.go:176-193. */
    method AddTicketForVoting(i: nat, t: Ticket, down: set<Fault>) returns (ok: bool)
      requires i < |wallets|
      modifies this`wallets
      ensures ok <==> ImportFails(i, t.hash) !in down && AddTxFails(i, t.hash) !in down
      ensures wallets == if ImportFails(i, t.hash) in down then old(wallets)
                         else if !ok then old(wallets)[i := ImportKey(old(wallets[i]), t.votingWIF)]
                         else old(wallets)[i := AddTx(ImportKey(old(wallets[i]), t.votingWIF), t.hash)]
    {
      if ImportFails(i, t.hash) in down {
        return false;
      }
      wallets := wallets[i := ImportKey(wallets[i], t.votingWIF)];
      if AddTxFails(i, t.hash) in down {
        return false;
      }
      wallets := wallets[i := AddTx(wallets[i], t.hash)];
      ok := true;
    }

    /** walletconsistency.go:122-183 for one wallet. */
    method SyncWallet(i: nat, vs: seq<DbTicket>, ghost ts: seq<Ticket>, heightOf: string -> int64, oldest: int,
                      down: set<Fault>,
                      ghost before: Db, ghost cs: seq<Choices>)
      returns (stop: bool, ghost upto: nat, ghost cs': seq<Choices>)
      requires db.Valid() && i < |wallets| && Sound(wallets[i]) && DistinctHashes(ts) && forall t | t in ts :: Normal(t)
      requires Holds(vs, ts, cs) && Tracks(before, db.tickets, db.broken, ts, cs)
      modifies this`wallets, db`tickets, Maps(vs)
      ensures db.Valid() && Holds(vs, ts, cs') && Tracks(before, db.tickets, db.broken, ts, cs')
      ensures |wallets| == |old(wallets)| && wallets == old(wallets)[i := wallets[i]]
      ensures WalletPass(down, i, heightOf, oldest, ts, upto, old(wallets[i]), wallets[i], cs, cs')
      ensures if stop then TicketInfoFails(2, i) !in down && upto < |ts| && Cancelled(2, i, upto) in down
              else upto == Reached(down, i, |ts|)
    {
      hide WalletPass, Tracks, InStep, Sound, WellFiled, Normal, Synced, Left, Pushed, Failing, WithEntries;
      ghost var w := wallets[i];
      stop, upto, cs' := false, 0, cs;
      PassBegins(down, i, heightOf, oldest, ts, w, cs);
      assert wallets[i := w] == wallets;
      if TicketInfoFails(2, i) in down {
        return;
      }
      var walletTickets := TicketInfo(wallets[i], oldest, heightOf);
      for j := 0 to |vs|
        invariant upto == j && |cs'| == |ts| == |vs|
        invariant db.Valid() && Holds(vs, ts, cs') && Tracks(before, db.tickets, db.broken, ts, cs')
        invariant |wallets| == |old(wallets)| && wallets == old(wallets)[i := wallets[i]]
        invariant WalletPass(down, i, heightOf, oldest, ts, upto, w, wallets[i], cs, cs')
      {
        if Cancelled(2, i, j) in down {
          return true, upto, cs';
        }
        var v := vs[j];
        if v.record.hash !in walletTickets {
          PassSkips(down, i, heightOf, oldest, ts, upto, w, wallets[i], cs, cs');
          upto := upto + 1;
          continue;
        }
        PassSyncs(down, i, heightOf, oldest, ts, upto, w, wallets[i], cs, cs');
        StillSound(down, i, heightOf, oldest, ts, upto, w, wallets[i], cs, cs');
        TracksHas(before, db.tickets, db.broken, ts, cs', j);
        ghost var db0 := db.tickets;
        label syncing:
        SyncTicket(i, v, walletTickets[v.record.hash], down);
        TracksOne(before, db0, db.tickets, db.broken, ts, cs', j, v.choices.entries);
        cs' := cs'[j := v.choices.entries];
        upto := upto + 1;
        assert forall k | 0 <= k < |vs| && k != j :: vs[k].choices != v.choices;
      }
    }

    /** The agenda loop, walletconsistency.go:146-180. */
    method SyncTicket(i: nat, v: DbTicket, walletChoices: Choices, down: set<Fault>)
      requires db.Valid() && Normal(v.record) && i < |wallets| && Sound(wallets[i])
      requires v.record.hash in wallets[i].tickets && walletChoices == wallets[i].tickets[v.record.hash]
      requires InStep(db.tickets, db.broken, v.record, v.choices.entries)
      modifies this`wallets, db`tickets, v.choices
      ensures db.Valid() && InStep(db.tickets, db.broken, v.record, v.choices.entries)
      ensures db.tickets == old(db.tickets)[v.record.hash := db.tickets[v.record.hash]]
      ensures var c, known := old(v.choices.entries), old(wallets[i]).agendas;
              var failing := Failing(down, i, v.record.hash, c);
              && v.choices.entries == Left(c, known, failing, {})
              && wallets == old(wallets)[i := Synced(old(wallets[i]), v.record.hash, Pushed(c, known, failing, {}))]
    {
      hide Left, Pushed, Failing, Sound, InStep, WellFiled, Normal;
      var h := v.record.hash;
      ghost var c, w := v.choices.entries, wallets[i];
      ghost var failing := Failing(down, i, h, c);
      SoundTicket(w, h);
      NothingHandled(c, w.agendas, failing);
      NothingPushed(w, h);
      assert wallets[i := w] == wallets;
      assert db.tickets[h := db.tickets[h]] == db.tickets by { InStepHas(db.tickets, db.broken, v.record, c); }
      var todo := v.choices.entries.Keys;
      while todo != {}
        invariant todo <= c.Keys
        invariant db.Valid() && InStep(db.tickets, db.broken, v.record, v.choices.entries)
        invariant h in db.tickets && db.tickets == old(db.tickets)[h := db.tickets[h]]
        invariant v.choices.entries == Left(c, w.agendas, failing, todo)
        invariant |wallets| == |old(wallets)|
        invariant wallets == old(wallets)[i := Synced(w, h, Pushed(c, w.agendas, failing, todo))]
        decreases |todo|
      {
        var agenda :| agenda in todo;
        ghost var pushed := Pushed(c, w.agendas, failing, todo);
        HandleAgenda(c, w.agendas, failing, todo, agenda);
        FailingHas(down, i, h, c, agenda);
        SyncOne(w, h, pushed, agenda, c[agenda]);
        todo := todo - {agenda};
        SyncAgenda(i, v, walletChoices, agenda, down);
      }
    }

    /** walletconsistency.go:147-179 for one agenda. */
    method SyncAgenda(i: nat, v: DbTicket, walletChoices: Choices, agenda: string, down: set<Fault>)
      requires db.Valid() && Normal(v.record) && i < |wallets| && v.record.hash in wallets[i].tickets
      requires agenda in v.choices.entries
      requires InStep(db.tickets, db.broken, v.record, v.choices.entries)
      modifies this`wallets, db`tickets, v.choices
      ensures db.Valid() && InStep(db.tickets, db.broken, v.record, v.choices.entries)
      ensures v.record.hash in db.tickets && db.tickets == old(db.tickets)[v.record.hash := db.tickets[v.record.hash]]
      ensures var h, choice, w := v.record.hash, old(v.choices.entries)[agenda], old(wallets[i]);
              var matches := agenda in walletChoices && walletChoices[agenda] == choice;
              var failed := SetFails(i, h, agenda) in down;
              && v.choices.entries == (if matches || failed || agenda in w.agendas then old(v.choices.entries)
                                       else old(v.choices.entries) - {agenda})
              && wallets == (if matches || failed || agenda !in w.agendas then old(wallets)
                             else old(wallets)[i := SetVoteChoice(w, agenda, choice, h).value])
    {
      var choice := v.choices.entries[agenda];
      assert db.tickets[v.record.hash := db.tickets[v.record.hash]] == db.tickets;
      var found := HasChoice(walletChoices, agenda, choice);
      if found {
        return;
      }
      if SetFails(i, v.record.hash, agenda) in down {
        return;
      }
      match SetVoteChoice(wallets[i], agenda, choice, v.record.hash) {
        case Some(after) =>
          wallets := wallets[i := after];
        case None =>
          v.choices.entries := v.choices.entries - {agenda};
          var ok := db.UpdateTicket(WithEntries(v.record, v.choices.entries));
      }
    }
  }

  // --------------------------------------------------- what a pass achieves

  /** The least recorded purchase height, or zero. */
  ghost predicate IsEarliest(ts: seq<Ticket>, oldest: int)
  {
    && (oldest == 0 <==> forall t | t in ts :: t.purchaseHeight == 0)
    && (oldest != 0 ==> exists t | t in ts :: t.purchaseHeight == oldest)
    && (oldest != 0 ==> forall t | t in ts && t.purchaseHeight != 0 :: oldest <= t.purchaseHeight)
  }

  /** `c'` is `c` without some agendas, each unknown to one of the wallets. */
  ghost predicate Shrunk(ws: seq<Wallet>, c: Choices, c': Choices)
  {
    && (forall a | a in c' :: a in c && c'[a] == c[a])
    && forall a | a in c && a !in c' :: UnknownToSome(ws, a)
  }

  ghost predicate UnknownToSome(ws: seq<Wallet>, a: string)
  {
    exists k | 0 <= k < |ws| :: a !in ws[k].agendas
  }

  /** Under any faults: only votable tickets are added, only under their own keys;
      a wallet's choice is what it was or what the database said; and records lose
      nothing but agendas some wallet does not know. */
  ghost predicate SafePass(ts: seq<Ticket>, before: Db, after: Db, ws: seq<Wallet>, ws': seq<Wallet>)
  {
    && |ws'| == |ws| && (forall k | 0 <= k < |ws| :: SafeWallet(ts, ws[k], ws'[k]))
    && after.Keys == before.Keys
    && forall h | h in before ::
         after[h] == before[h]
         || (h in Hashes(ts) && after[h] == WithEntries(before[h], after[h].voteChoices.Entries())
             && Shrunk(ws, before[h].voteChoices.Entries(), after[h].voteChoices.Entries()))
  }

  ghost predicate SafeWallet(ts: seq<Ticket>, w: Wallet, w': Wallet)
  {
    && w'.agendas == w.agendas
    && w.tickets.Keys <= w'.tickets.Keys <= w.tickets.Keys + Hashes(ts)
    && w.keys <= w'.keys <= w.keys + (set t | t in ts :: t.votingWIF)
    && (w'.rescans == w.rescans || exists m: int :: w'.rescans == w.rescans + [m])
    && (forall h | h in w'.tickets && h !in w.tickets :: HasKeyFor(ts, h, w'.keys))
    && forall h, a | h in w'.tickets && a in w'.tickets[h] :: SafeChoice(ts, w, h, a, w'.tickets[h][a])
  }

  /** The key of the listed ticket with that hash is among the imported ones. */
  ghost predicate HasKeyFor(ts: seq<Ticket>, h: string, keys: set<string>)
  {
    exists j | 0 <= j < |ts| :: ts[j].hash == h && ts[j].votingWIF in keys
  }

  ghost predicate SafeChoice(ts: seq<Ticket>, w: Wallet, h: string, a: string, choice: string)
  {
    || (h in w.tickets && a in w.tickets[h] && choice == w.tickets[h][a])
    || (exists t | t in ts :: t.hash == h && a in t.voteChoices.Entries() && choice == t.voteChoices.Entries()[a])
  }

  /** The choices the first n wallets all have an agenda for. */
  ghost function Remaining(c: Choices, ws: seq<Wallet>, n: nat): Choices
    requires n <= |ws|
  {
    map a | a in c && (forall k | 0 <= k < n :: a in ws[k].agendas) :: c[a]
  }

  ghost function Base(w: Wallet, h: string): Choices
  {
    if h in w.tickets then w.tickets[h] else map[]
  }

  ghost function Unlisted(w: Wallet, ts: seq<Ticket>, heightOf: string -> int64, oldest: int): set<Ticket>
  {
    set t | t in ts && !Listed(w, t.hash, heightOf, oldest)
  }

  /** One rescan from the least block height of the missing tickets, if any. */
  ghost predicate RescannedFor(heightOf: string -> int64, missing: set<Ticket>, w: Wallet, w': Wallet)
  {
    if missing == {} then w'.rescans == w.rescans
    else
      exists m: int ::
        && w'.rescans == w.rescans + [m]
        && ((forall t | t in missing :: heightOf(t.hash) != 0)
           ==> IsMinHeight(heightOf, set t | t in missing :: t.hash, m))
  }

  /** What an undisturbed pass makes of wallet i. */
  ghost predicate WalletReconciled(heightOf: string -> int64, oldest: int, ts: seq<Ticket>, ws: seq<Wallet>, i: nat,
                                   w': Wallet)
    requires i < |ws|
  {
    var w := ws[i];
    var missing := Unlisted(w, ts, heightOf, oldest);
    && w'.agendas == w.agendas
    && w'.tickets.Keys == w.tickets.Keys + Hashes(ts)
    && (forall j | 0 <= j < |ts| :: w'.tickets[ts[j].hash] == TicketReconciled(heightOf, oldest, ts[j], ws, i))
    && (forall h | h in w.tickets && h !in Hashes(ts) :: w'.tickets[h] == w.tickets[h])
    && w'.keys == w.keys + (set t | t in missing :: t.votingWIF)
    && RescannedFor(heightOf, missing, w, w')
  }

  ghost function TicketReconciled(heightOf: string -> int64, oldest: int, t: Ticket, ws: seq<Wallet>, i: nat): Choices
    requires i < |ws|
  {
    Base(ws[i], t.hash) + if heightOf(t.hash) >= oldest then Remaining(t.voteChoices.Entries(), ws, i + 1) else map[]
  }

  /** What an undisturbed pass achieves. */
  ghost predicate Reconciled(heightOf: string -> int64, oldest: int, ts: seq<Ticket>, before: Db, after: Db,
                             ws: seq<Wallet>, ws': seq<Wallet>)
  {
    && |ws'| == |ws| && (forall i | 0 <= i < |ws| :: WalletReconciled(heightOf, oldest, ts, ws, i, ws'[i]))
    && after.Keys == before.Keys
    && forall h | h in before ::
         after[h] == if h in Hashes(ts) && heightOf(h) >= oldest
                     then WithEntries(before[h], Remaining(before[h].voteChoices.Entries(), ws, |ws|)) else before[h]
  }

  /** What an undisturbed pass makes of wallet i and one votable ticket, agenda by
      agenda: the wallet has the ticket, under its key if it did not list it; unless
      the ticket was mined below `oldest`, it has the stored choice for each agenda
      that it and all wallets before it know. */
  lemma ReconciledMeans(heightOf: string -> int64, oldest: int, ts: seq<Ticket>, before: Db, after: Db,
                        ws: seq<Wallet>, ws': seq<Wallet>, i: nat, t: Ticket, a: string)
    requires Reconciled(heightOf, oldest, ts, before, after, ws, ws') && Lists(before, Votable, ts) && i < |ws|
    requires t.hash in before && before[t.hash] == t && t.feeTxStatus == FeeConfirmed && t.outcome == Unspent
    ensures |ws'| == |ws| && t.hash in ws'[i].tickets
    ensures t.hash !in ws[i].tickets || heightOf(t.hash) < oldest ==> t.votingWIF in ws'[i].keys
    ensures var h, c, w, w' := t.hash, t.voteChoices.Entries(), ws[i], ws'[i];
            if heightOf(h) >= oldest && a in c && forall k | 0 <= k < i + 1 :: a in ws[k].agendas
            then a in w'.tickets[h] && w'.tickets[h][a] == c[a]
            else
              && (a in w'.tickets[h] <==> h in w.tickets && a in w.tickets[h])
              && (a in w'.tickets[h] ==> w'.tickets[h][a] == w.tickets[h][a])
  {
    assert Votable(t);
    ReconciledTicket(heightOf, oldest, ts, before, after, ws, ws', i, t);
    ChoicesReconciled(heightOf, oldest, t, ws, i, a);
    hide Reconciled, Lists, TicketReconciled, Votable;
  }

  lemma ChoicesReconciled(heightOf: string -> int64, oldest: int, t: Ticket, ws: seq<Wallet>, i: nat, a: string)
    requires i < |ws|
    ensures var h, c, w, r := t.hash, t.voteChoices.Entries(), ws[i], TicketReconciled(heightOf, oldest, t, ws, i);
            if heightOf(h) >= oldest && a in c && forall k | 0 <= k < i + 1 :: a in ws[k].agendas
            then a in r && r[a] == c[a]
            else (a in r <==> h in w.tickets && a in w.tickets[h]) && (a in r ==> r[a] == w.tickets[h][a])
  {
    RemainingMeans(t.voteChoices.Entries(), ws, i + 1, a);
    hide Remaining;
  }

  /** And the record keeps the choices whose agendas all wallets know. */
  lemma RecordReconciledMeans(heightOf: string -> int64, oldest: int, ts: seq<Ticket>, before: Db, after: Db,
                              ws: seq<Wallet>, ws': seq<Wallet>, t: Ticket, a: string)
    requires Reconciled(heightOf, oldest, ts, before, after, ws, ws') && Lists(before, Votable, ts) && ws != []
    requires t.hash in before && before[t.hash] == t && t.feeTxStatus == FeeConfirmed && t.outcome == Unspent
    ensures t.hash in after && after[t.hash] == t.(voteChoices := after[t.hash].voteChoices)
    ensures var c, c' := t.voteChoices.Entries(), after[t.hash].voteChoices.Entries();
            if heightOf(t.hash) < oldest then c' == c
            else
              && (a in c' <==> a in c && forall k | 0 <= k < |ws| :: a in ws[k].agendas)
              && (a in c' ==> c'[a] == c[a])
  {
    assert Votable(t);
    ReconciledTicket(heightOf, oldest, ts, before, after, ws, ws', 0, t);
    RemainingMeans(t.voteChoices.Entries(), ws, |ws|, a);
    hide Reconciled, Lists, Remaining, Votable, TicketReconciled;
  }

  lemma RemainingMeans(c: Choices, ws: seq<Wallet>, n: nat, a: string)
    requires n <= |ws|
    ensures a in Remaining(c, ws, n) <==> a in c && forall k | 0 <= k < n :: a in ws[k].agendas
    ensures a in Remaining(c, ws, n) ==> Remaining(c, ws, n)[a] == c[a]
  {
  }

  lemma ReconciledTicket(heightOf: string -> int64, oldest: int, ts: seq<Ticket>, before: Db, after: Db,
                         ws: seq<Wallet>, ws': seq<Wallet>, i: nat, t: Ticket)
    requires Reconciled(heightOf, oldest, ts, before, after, ws, ws') && Lists(before, Votable, ts) && i < |ws|
    requires t.hash in before && before[t.hash] == t && Votable(t)
    ensures |ws'| == |ws| && t.hash in ws'[i].tickets && t.hash in after
    ensures ws'[i].tickets[t.hash] == TicketReconciled(heightOf, oldest, t, ws, i)
    ensures after[t.hash] == if heightOf(t.hash) >= oldest
                             then WithEntries(t, Remaining(t.voteChoices.Entries(), ws, |ws|)) else t
    ensures t.hash !in ws[i].tickets || heightOf(t.hash) < oldest ==> t.votingWIF in ws'[i].keys
  {
    hide TicketReconciled, Remaining, RescannedFor, WithEntries, Listed;
    assert t in ts;
    assert t.hash in Hashes(ts);
    assert WalletReconciled(heightOf, oldest, ts, ws, i, ws'[i]);
    var j :| 0 <= j < |ts| && ts[j] == t;
    WalletHasKey(heightOf, oldest, ts, ws, i, ws'[i], t);
    hide WalletReconciled, Votable;
  }

  lemma WalletHasKey(heightOf: string -> int64, oldest: int, ts: seq<Ticket>, ws: seq<Wallet>, i: nat, w': Wallet,
                     t: Ticket)
    requires i < |ws| && WalletReconciled(heightOf, oldest, ts, ws, i, w') && t in ts
    ensures |ts| > 0 && w'.tickets.Keys == ws[i].tickets.Keys + Hashes(ts)
    ensures t.hash !in ws[i].tickets || heightOf(t.hash) < oldest ==> t.votingWIF in w'.keys
  {
    hide TicketReconciled, RescannedFor;
    if t.hash !in ws[i].tickets || heightOf(t.hash) < oldest {
      assert t in Unlisted(ws[i], ts, heightOf, oldest);
    }
  }

  /** And beyond those tickets no other ticket comes, goes or changes. */
  lemma NothingElseReconciled(heightOf: string -> int64, oldest: int, ts: seq<Ticket>, before: Db, after: Db,
                              ws: seq<Wallet>, ws': seq<Wallet>, i: nat, h: string)
    requires Reconciled(heightOf, oldest, ts, before, after, ws, ws') && Lists(before, Votable, ts) && i < |ws|
    requires !(h in before && before[h].feeTxStatus == FeeConfirmed && before[h].outcome == Unspent)
    ensures |ws'| == |ws| && (h in ws'[i].tickets <==> h in ws[i].tickets)
    ensures h in ws[i].tickets ==> ws'[i].tickets[h] == ws[i].tickets[h]
    ensures h in before ==> h in after && after[h] == before[h]
  {
    hide TicketReconciled, RescannedFor, Remaining, Unlisted, WithEntries;
    assert WalletReconciled(heightOf, oldest, ts, ws, i, ws'[i]);
    assert h !in Hashes(ts);
  }

  /** No key is imported but those of tickets the wallet did not list, and there is one
      rescan, from the least of their heights, if there are any. */
  lemma KeysAndRescans(heightOf: string -> int64, oldest: int, ts: seq<Ticket>, before: Db, after: Db,
                       ws: seq<Wallet>, ws': seq<Wallet>, i: nat)
    requires Reconciled(heightOf, oldest, ts, before, after, ws, ws') && i < |ws|
    ensures |ws'| == |ws|
    ensures var w, w' := ws[i], ws'[i];
            var missing := set t | t in ts && !(t.hash in w.tickets && heightOf(t.hash) >= oldest);
            && w'.keys == w.keys + (set t | t in missing :: t.votingWIF)
            && (missing == {} ==> w'.rescans == w.rescans)
            && (missing != {} && (forall t | t in missing :: heightOf(t.hash) != 0) ==>
                  exists first | first in missing ::
                    && w'.rescans == w.rescans + [heightOf(first.hash)]
                    && forall t | t in missing :: heightOf(first.hash) <= heightOf(t.hash))
  {
    assert WalletReconciled(heightOf, oldest, ts, ws, i, ws'[i]);
    var w := ws[i];
    var missing := set t | t in ts && !(t.hash in w.tickets && heightOf(t.hash) >= oldest);
    assert Unlisted(w, ts, heightOf, oldest) == missing;
    hide Reconciled, TicketReconciled, Unlisted;
    if missing != {} && forall t | t in missing :: heightOf(t.hash) != 0 {
      LeastOf(heightOf, missing, w, ws'[i]);
    }
  }

  lemma LeastOf(heightOf: string -> int64, missing: set<Ticket>, w: Wallet, w': Wallet)
    requires RescannedFor(heightOf, missing, w, w') && missing != {} && forall t | t in missing :: heightOf(t.hash) != 0
    ensures exists first | first in missing ::
              && w'.rescans == w.rescans + [heightOf(first.hash)]
              && forall t | t in missing :: heightOf(first.hash) <= heightOf(t.hash)
  {
    var hashes := set t | t in missing :: t.hash;
    var m: int :| w'.rescans == w.rescans + [m] && IsMinHeight(heightOf, hashes, m);
    var g :| g in hashes && heightOf(g) == m;
    var first :| first in missing && first.hash == g;
    forall t | t in missing ensures m <= heightOf(t.hash) {
      assert t.hash in hashes;
    }
  }

  /** The listed tickets are records of the database, each once. */
  ghost predicate Listing(db: Db, ts: seq<Ticket>)
  {
    && DistinctHashes(ts)
    && forall j | 0 <= j < |ts| :: ts[j].hash in db && db[ts[j].hash] == ts[j] && Normal(ts[j])
  }

  lemma ListedFacts(db: Db, ts: seq<Ticket>)
    requires WellFiled(db) && Lists(db, Votable, ts)
    ensures Listing(db, ts)
  {
  }

  lemma EarliestIs(ts: seq<Ticket>, oldest: int)
    requires oldest == 0 <==> forall t | t in ts :: t.purchaseHeight == 0
    requires oldest != 0 ==> exists t | t in ts :: t.purchaseHeight == oldest
    requires oldest != 0 ==> forall t | t in ts && t.purchaseHeight != 0 :: oldest <= t.purchaseHeight
    ensures IsEarliest(ts, oldest)
  {
  }

  lemma SameWalletIsSafe(ts: seq<Ticket>, w: Wallet)
    ensures SafeWallet(ts, w, w)
  {
  }

  lemma NothingDone(db: Db, ws: seq<Wallet>)
    ensures SafePass([], db, db, ws, ws)
  {
    forall k | 0 <= k < |ws| ensures SafeWallet([], ws[k], ws[k]) {
      SameWalletIsSafe([], ws[k]);
    }
    hide SafeWallet;
  }

  lemma NothingVotable(heightOf: string -> int64, db: Db, ws: seq<Wallet>)
    ensures Reconciled(heightOf, 0, [], db, db, ws, ws)
  {
    forall i | 0 <= i < |ws| ensures WalletReconciled(heightOf, 0, [], ws, i, ws[i]) {
      assert Unlisted(ws[i], [], heightOf, 0) == {};
    }
    hide WalletReconciled;
  }

  lemma TracksInitially(db: Db, broken: set<string>, ts: seq<Ticket>)
    requires Listing(db, ts)
    ensures Tracks(db, db, broken, ts, StoredChoices(ts))
  {
  }

  lemma AddIsSafe(down: set<Fault>, i: nat, heightOf: string -> int64, oldest: int, ts: seq<Ticket>, w: Wallet,
                  w': Wallet)
    requires AddPass(down, i, heightOf, oldest, ts, w, w')
    ensures SafeWallet(ts, w, w') && (Sound(w) ==> Sound(w'))
    ensures forall h | h in w'.tickets && h !in w.tickets :: w'.tickets[h] == map[]
    ensures forall h | h in w.tickets :: w'.tickets[h] == w.tickets[h]
  {
    hide NewHashes, NewKeys, IsMinHeight, HasKeyFor, SafeChoice;
    SameWalletIsSafe(ts, w);
    var info := TicketInfo(w, oldest, heightOf).Keys;
    NewTicketsHaveKeys(down, i, info, ts);
    OldChoicesAreSafe(ts, w);
    hide TicketInfo;
  }

  lemma NewTicketsHaveKeys(down: set<Fault>, i: nat, info: set<string>, ts: seq<Ticket>)
    ensures NewHashes(down, i, info, ts) <= Hashes(ts) && NewKeys(down, i, info, ts) <= (set t | t in ts :: t.votingWIF)
    ensures forall h, keys | h in NewHashes(down, i, info, ts) && NewKeys(down, i, info, ts) <= keys ::
              HasKeyFor(ts, h, keys)
  {
    forall h, keys | h in NewHashes(down, i, info, ts) && NewKeys(down, i, info, ts) <= keys
      ensures HasKeyFor(ts, h, keys)
    {
      var j :| 0 <= j < |ts| && ts[j].hash == h && Imported(down, i, info, ts[j]);
      assert ts[j].votingWIF in NewKeys(down, i, info, ts);
    }
  }

  lemma OldChoicesAreSafe(ts: seq<Ticket>, w: Wallet)
    ensures forall h, a | h in w.tickets && a in w.tickets[h] :: SafeChoice(ts, w, h, a, w.tickets[h][a])
  {
  }

  lemma FirstPassIsSafe(down: set<Fault>, heightOf: string -> int64, oldest: int, ts: seq<Ticket>,
                        ws: seq<Wallet>, ws': seq<Wallet>, n: nat, db: Db)
    requires FirstPass(down, heightOf, oldest, ts, ws, ws', n)
    ensures SafePass(ts, db, db, ws, ws')
  {
    forall k | 0 <= k < |ws| ensures SafeWallet(ts, ws[k], ws'[k]) {
      if k < n {
        AddIsSafe(down, k, heightOf, oldest, ts, ws[k], ws'[k]);
      } else {
        SameWalletIsSafe(ts, ws[k]);
      }
    }
    hide SafeWallet;
  }

  lemma SoundAfterAdding(down: set<Fault>, heightOf: string -> int64, oldest: int, ts: seq<Ticket>,
                         ws: seq<Wallet>, ws': seq<Wallet>)
    requires AllSound(ws) && FirstPass(down, heightOf, oldest, ts, ws, ws', |ws|)
    ensures AllSound(ws')
  {
    hide AddPass, Sound;
    forall i | 0 <= i < |ws'| ensures Sound(ws'[i]) {
      AddIsSafe(down, i, heightOf, oldest, ts, ws[i], ws'[i]);
    }
  }

  lemma NormalTickets(db: Db, ts: seq<Ticket>)
    requires Listing(db, ts)
    ensures DistinctHashes(ts) && forall t | t in ts :: Normal(t)
  {
  }

  lemma OneMoreWallet(down: set<Fault>, heightOf: string -> int64, oldest: int, ts: seq<Ticket>,
                      ws: seq<Wallet>, ws0: seq<Wallet>, css: seq<seq<Choices>>, uptos: seq<nat>,
                      ws': seq<Wallet>, cs: seq<Choices>, upto: nat)
    requires SecondPass(down, heightOf, oldest, ts, ws, ws0, css, uptos) && |uptos| < |ws|
    requires |ws'| == |ws0| && ws' == ws0[|uptos| := ws'[|uptos|]]
    requires WalletPass(down, |uptos|, heightOf, oldest, ts, upto, ws[|uptos|], ws'[|uptos|], css[|uptos|], cs)
    ensures SecondPass(down, heightOf, oldest, ts, ws, ws', css + [cs], uptos + [upto])
  {
    hide WalletPass;
    var css', uptos' := css + [cs], uptos + [upto];
    forall k | 0 <= k < |uptos'|
      ensures WalletPass(down, k, heightOf, oldest, ts, uptos'[k], ws[k], ws'[k], css'[k], css'[k + 1])
    {
      assert k < |uptos| ==> ws'[k] == ws0[k];
    }
  }

  /** The choices only ever shrink, and only by agendas unknown to some wallet. */
  lemma {:induction false} ChoicesShrink(down: set<Fault>, heightOf: string -> int64, oldest: int, ts: seq<Ticket>,
                                         ws: seq<Wallet>, ws1: seq<Wallet>, ws': seq<Wallet>,
                                         css: seq<seq<Choices>>, uptos: seq<nat>, k: nat, j: nat)
    requires FirstPass(down, heightOf, oldest, ts, ws, ws1, |ws|)
             && SecondPass(down, heightOf, oldest, ts, ws1, ws', css, uptos)
    requires css[0] == StoredChoices(ts) && k <= |uptos| && j < |ts|
    ensures |css[k]| == |ts| && Shrunk(ws, ts[j].voteChoices.Entries(), css[k][j])
    decreases k
  {
    hide AddPass;
    if k > 0 {
      ChoicesShrink(down, heightOf, oldest, ts, ws, ws1, ws', css, uptos, k - 1, j);
      AddIsSafe(down, k - 1, heightOf, oldest, ts, ws[k - 1], ws1[k - 1]);
      var h := ts[j].hash;
      assert TicketPass(down, k - 1, heightOf, oldest, h, j < uptos[k - 1], ws1[k - 1], ws'[k - 1], css[k - 1][j],
                        css[k][j]);
      hide WalletPass, TicketPass, Failing, SafeWallet;
      assert css[k][j] == css[k - 1][j]
          || css[k][j] == Left(css[k - 1][j], ws[k - 1].agendas, Failing(down, k - 1, h, css[k - 1][j]), {});
    }
  }

  lemma PassedChoiceIsSafe(down: set<Fault>, i: nat, heightOf: string -> int64, oldest: int, ts: seq<Ticket>, upto: nat,
                           w: Wallet, w1: Wallet, w': Wallet, cs: seq<Choices>, cs': seq<Choices>, h: string, a: string)
    requires SafeWallet(ts, w, w1) && WalletPass(down, i, heightOf, oldest, ts, upto, w1, w', cs, cs')
    requires forall j, b | 0 <= j < |ts| && b in cs[j] ::
               b in ts[j].voteChoices.Entries() && cs[j][b] == ts[j].voteChoices.Entries()[b]
    ensures h in w'.tickets && a in w'.tickets[h] ==> SafeChoice(ts, w, h, a, w'.tickets[h][a])
  {
    hide Failing;
    if h !in w'.tickets || a !in w'.tickets[h] {
      return;
    }
    if h in Hashes(ts) {
      var j :| 0 <= j < |ts| && ts[j].hash == h;
      assert TicketPass(down, i, heightOf, oldest, h, j < upto, w1, w', cs[j], cs'[j]);
      hide WalletPass, Left, Listed;
      if a in w1.tickets[h] && w1.tickets[h][a] == w'.tickets[h][a] {
        hide SafeChoice;
      } else {
        assert a in Pushed(cs[j], w1.agendas, Failing(down, i, h, cs[j]), {});
        assert ts[j] in ts;
      }
    } else {
      hide SafeChoice;
    }
  }

  lemma SecondPassWalletIsSafe(down: set<Fault>, i: nat, heightOf: string -> int64, oldest: int, ts: seq<Ticket>,
                               upto: nat,
                               w: Wallet, w1: Wallet, w': Wallet, cs: seq<Choices>, cs': seq<Choices>)
    requires SafeWallet(ts, w, w1) && WalletPass(down, i, heightOf, oldest, ts, upto, w1, w', cs, cs')
    requires forall j, a | 0 <= j < |ts| && a in cs[j] ::
               a in ts[j].voteChoices.Entries() && cs[j][a] == ts[j].voteChoices.Entries()[a]
    ensures SafeWallet(ts, w, w')
  {
    hide SafeChoice, TicketPass;
    forall h, a | h in w'.tickets && a in w'.tickets[h] ensures SafeChoice(ts, w, h, a, w'.tickets[h][a]) {
      PassedChoiceIsSafe(down, i, heightOf, oldest, ts, upto, w, w1, w', cs, cs', h, a);
    }
  }

  lemma WalletStaysSafe(down: set<Fault>, heightOf: string -> int64, oldest: int, ts: seq<Ticket>,
                        ws: seq<Wallet>, ws1: seq<Wallet>, ws': seq<Wallet>,
                        css: seq<seq<Choices>>, uptos: seq<nat>, k: nat)
    requires FirstPass(down, heightOf, oldest, ts, ws, ws1, |ws|)
             && SecondPass(down, heightOf, oldest, ts, ws1, ws', css, uptos)
    requires css[0] == StoredChoices(ts) && k < |ws|
    ensures SafeWallet(ts, ws[k], ws'[k])
  {
    hide AddPass, SafeWallet, WalletPass, Shrunk, StoredChoices;
    AddIsSafe(down, k, heightOf, oldest, ts, ws[k], ws1[k]);
    if k < |uptos| {
      PassLength(down, k, heightOf, oldest, ts, uptos[k], ws1[k], ws'[k], css[k], css[k + 1]);
      forall j, a | 0 <= j < |ts| && a in css[k][j]
        ensures a in ts[j].voteChoices.Entries() && css[k][j][a] == ts[j].voteChoices.Entries()[a]
      {
        ChoicesShrink(down, heightOf, oldest, ts, ws, ws1, ws', css, uptos, k, j);
        ShrunkHas(ws, ts[j].voteChoices.Entries(), css[k][j], a);
      }
      SecondPassWalletIsSafe(down, k, heightOf, oldest, ts, uptos[k], ws[k], ws1[k], ws'[k], css[k], css[k + 1]);
    } else {
      assert ws'[k] == ws1[k];
    }
  }

  lemma BothPassesAreSafe(down: set<Fault>, heightOf: string -> int64, oldest: int, ts: seq<Ticket>,
                          ws: seq<Wallet>, ws1: seq<Wallet>, ws': seq<Wallet>,
                          css: seq<seq<Choices>>, uptos: seq<nat>, before: Db, db: Db, broken: set<string>)
    requires FirstPass(down, heightOf, oldest, ts, ws, ws1, |ws|)
             && SecondPass(down, heightOf, oldest, ts, ws1, ws', css, uptos)
    requires css[0] == StoredChoices(ts) && Listing(before, ts) && Tracks(before, db, broken, ts, css[|uptos|])
    ensures SafePass(ts, before, db, ws, ws')
  {
    hide AddPass, SafeWallet, WalletPass, Shrunk, StoredChoices;
    forall k | 0 <= k < |ws| ensures SafeWallet(ts, ws[k], ws'[k]) {
      WalletStaysSafe(down, heightOf, oldest, ts, ws, ws1, ws', css, uptos, k);
    }
    forall h | h in before
      ensures db[h] == before[h]
           || (h in Hashes(ts) && db[h] == WithEntries(before[h], db[h].voteChoices.Entries())
               && Shrunk(ws, before[h].voteChoices.Entries(), db[h].voteChoices.Entries()))
    {
      if h in Hashes(ts) {
        var j :| 0 <= j < |ts| && ts[j].hash == h;
        assert InStep(db, broken, ts[j], css[|uptos|][j]);
        ChoicesShrink(down, heightOf, oldest, ts, ws, ws1, ws', css, uptos, |uptos|, j);
      }
    }
  }

  lemma PassLength(down: set<Fault>, i: nat, heightOf: string -> int64, oldest: int, ts: seq<Ticket>, upto: nat,
                   w: Wallet, w': Wallet, cs: seq<Choices>, cs': seq<Choices>)
    requires WalletPass(down, i, heightOf, oldest, ts, upto, w, w', cs, cs')
    ensures |cs| == |cs'| == |ts|
  {
  }

  lemma ShrunkHas(ws: seq<Wallet>, c: Choices, c': Choices, a: string)
    requires Shrunk(ws, c, c') && a in c'
    ensures a in c && c'[a] == c[a]
  {
  }

  /** A wallet after an undisturbed first pass. */
  ghost predicate WalletAdded(heightOf: string -> int64, oldest: int, ts: seq<Ticket>, w: Wallet, w': Wallet)
  {
    var missing := Unlisted(w, ts, heightOf, oldest);
    && w'.agendas == w.agendas
    && w'.tickets.Keys == w.tickets.Keys + Hashes(ts)
    && (forall h | h in w'.tickets :: w'.tickets[h] == Base(w, h))
    && w'.keys == w.keys + (set t | t in missing :: t.votingWIF)
    && RescannedFor(heightOf, missing, w, w')
  }

  lemma UndisturbedSets(i: nat, heightOf: string -> int64, oldest: int, ts: seq<Ticket>, w: Wallet)
    ensures var missing, info := Unlisted(w, ts, heightOf, oldest), TicketInfo(w, oldest, heightOf).Keys;
            && NewHashes({}, i, info, ts) == (set t | t in missing :: t.hash)
            && NewKeys({}, i, info, ts) == (set t | t in missing :: t.votingWIF)
            && w.tickets.Keys + NewHashes({}, i, info, ts) == w.tickets.Keys + Hashes(ts)
            && (NewHashes({}, i, info, ts) == {} <==> missing == {})
  {
    var missing, info := Unlisted(w, ts, heightOf, oldest), TicketInfo(w, oldest, heightOf).Keys;
    assert NewHashes({}, i, info, ts) == (set t | t in missing :: t.hash);
    assert NewKeys({}, i, info, ts) == (set t | t in missing :: t.votingWIF);
    assert w.tickets.Keys + NewHashes({}, i, info, ts) == w.tickets.Keys + Hashes(ts);
    if missing != {} {
      var t :| t in missing;
      assert t.hash in NewHashes({}, i, info, ts);
    }
  }

  lemma UndisturbedAdd(i: nat, heightOf: string -> int64, oldest: int, ts: seq<Ticket>, w: Wallet, w': Wallet)
    requires AddPass({}, i, heightOf, oldest, ts, w, w')
    ensures WalletAdded(heightOf, oldest, ts, w, w')
  {
    hide NewHashes, NewKeys, Hashes, Unlisted, IsMinHeight, RescannedFor, WithTickets;
    UndisturbedSets(i, heightOf, oldest, ts, w);
    var missing := Unlisted(w, ts, heightOf, oldest);
    var info := TicketInfo(w, oldest, heightOf).Keys;
    hide TicketInfo;
    var hashes, keys := NewHashes({}, i, info, ts), NewKeys({}, i, info, ts);
    AddedTickets(w, hashes, keys);
    UndisturbedRescan(heightOf, missing, w, w', WithTickets(w, hashes, keys));
  }

  lemma AddedTickets(w: Wallet, hashes: set<string>, keys: set<string>)
    ensures var w' := WithTickets(w, hashes, keys);
            && w'.agendas == w.agendas && w'.keys == w.keys + keys && w'.rescans == w.rescans
            && w'.tickets.Keys == w.tickets.Keys + hashes
            && forall h | h in w'.tickets :: w'.tickets[h] == Base(w, h)
  {
  }

  lemma UndisturbedRescan(heightOf: string -> int64, missing: set<Ticket>, w: Wallet, w': Wallet, added: Wallet)
    requires var hashes := set t | t in missing :: t.hash;
             && added.rescans == w.rescans
             && if missing == {} then w' == added
                else exists m: int :: Rescanned(heightOf, hashes, added, w', m)
    ensures RescannedFor(heightOf, missing, w, w') && w'.(rescans := w.rescans) == added
  {
    var hashes := set t | t in missing :: t.hash;
    if missing != {} {
      var m: int :| Rescanned(heightOf, hashes, added, w', m);
      assert w'.rescans == w.rescans + [m];
    }
    hide IsMinHeight;
  }

  lemma RemainingStep(c: Choices, ws: seq<Wallet>, k: nat, i: nat, h: string)
    requires k < |ws|
    ensures Remaining(c, ws, 0) == c
    ensures var r := Remaining(c, ws, k);
            && Left(r, ws[k].agendas, Failing({}, i, h, r), {}) == Remaining(c, ws, k + 1)
            && Pushed(r, ws[k].agendas, Failing({}, i, h, r), {}) == Remaining(c, ws, k + 1)
  {
  }

  /** The choices wallet k is confronted with. */
  lemma {:induction false} ChoicesRemain(heightOf: string -> int64, oldest: int, ts: seq<Ticket>,
                                         ws: seq<Wallet>, ws1: seq<Wallet>, ws': seq<Wallet>,
                                         css: seq<seq<Choices>>, uptos: seq<nat>, k: nat, j: nat)
    requires FirstPass({}, heightOf, oldest, ts, ws, ws1, |ws|)
             && SecondPass({}, heightOf, oldest, ts, ws1, ws', css, uptos)
    requires css[0] == StoredChoices(ts) && k <= |uptos| == |ws| && j < |ts|
    requires forall n | 0 <= n < |uptos| :: uptos[n] == |ts|
    ensures |css[k]| == |ts|
    ensures css[k][j] == if heightOf(ts[j].hash) >= oldest then Remaining(ts[j].voteChoices.Entries(), ws, k)
                         else ts[j].voteChoices.Entries()
    decreases k
  {
    hide AddPass, Left, Pushed, Failing, Remaining;
    var h, c := ts[j].hash, ts[j].voteChoices.Entries();
    if k > 0 {
      var n := k - 1;
      ChoicesRemain(heightOf, oldest, ts, ws, ws1, ws', css, uptos, n, j);
      UndisturbedAdd(n, heightOf, oldest, ts, ws[n], ws1[n]);
      assert h in Hashes(ts);
      assert TicketPass({}, n, heightOf, oldest, h, j < uptos[n], ws1[n], ws'[n], css[n][j], css[k][j]);
      RemainingStep(c, ws, n, n, h);
      hide WalletPass, RescannedFor;
    } else if ws != [] {
      RemainingStep(c, ws, 0, 0, h);
    } else {
      assert Remaining(c, ws, 0) == c by { RemainingAtFirst(c, ws); }
    }
  }

  lemma RemainingAtFirst(c: Choices, ws: seq<Wallet>)
    ensures Remaining(c, ws, 0) == c
  {
  }

  lemma TicketIsReconciled(heightOf: string -> int64, oldest: int, t: Ticket, ws: seq<Wallet>, i: nat,
                           w1: Wallet, w': Wallet, c: Choices, c': Choices)
    requires i < |ws| && w1.agendas == ws[i].agendas && t.hash in w1.tickets
             && w1.tickets[t.hash] == Base(ws[i], t.hash)
    requires w'.tickets.Keys == w1.tickets.Keys && TicketPass({}, i, heightOf, oldest, t.hash, true, w1, w', c, c')
    requires heightOf(t.hash) >= oldest ==> c == Remaining(t.voteChoices.Entries(), ws, i)
    ensures w'.tickets[t.hash] == TicketReconciled(heightOf, oldest, t, ws, i)
  {
    hide Left, Pushed, Failing, Remaining, Base;
    RemainingStep(t.voteChoices.Entries(), ws, i, i, t.hash);
    assert w1.tickets[t.hash] + map[] == w1.tickets[t.hash];
  }

  lemma WalletIsReconciled(heightOf: string -> int64, oldest: int, ts: seq<Ticket>, ws: seq<Wallet>, i: nat,
                           w1: Wallet, w': Wallet, cs: seq<Choices>, cs': seq<Choices>)
    requires i < |ws| && WalletAdded(heightOf, oldest, ts, ws[i], w1)
    requires WalletPass({}, i, heightOf, oldest, ts, |ts|, w1, w', cs, cs')
    requires forall j | 0 <= j < |ts| && heightOf(ts[j].hash) >= oldest ::
               cs[j] == Remaining(ts[j].voteChoices.Entries(), ws, i)
    ensures WalletReconciled(heightOf, oldest, ts, ws, i, w')
  {
    hide RescannedFor, Remaining, Unlisted, TicketPass, TicketReconciled;
    forall j | 0 <= j < |ts|
      ensures ts[j].hash in Hashes(ts) && w'.tickets[ts[j].hash] == TicketReconciled(heightOf, oldest, ts[j], ws, i)
    {
      assert ts[j].hash in Hashes(ts) && ts[j].hash in w1.tickets;
      assert TicketPass({}, i, heightOf, oldest, ts[j].hash, j < |ts|, w1, w', cs[j], cs'[j]);
      TicketIsReconciled(heightOf, oldest, ts[j], ws, i, w1, w', cs[j], cs'[j]);
    }
    hide Hashes;
    SameRescans(heightOf, Unlisted(ws[i], ts, heightOf, oldest), ws[i], w1, w');
  }

  lemma SameRescans(heightOf: string -> int64, missing: set<Ticket>, w: Wallet, w1: Wallet, w': Wallet)
    requires RescannedFor(heightOf, missing, w, w1) && w'.rescans == w1.rescans
    ensures RescannedFor(heightOf, missing, w, w')
  {
  }

  lemma PassesReconcileWallet(heightOf: string -> int64, oldest: int, ts: seq<Ticket>,
                              ws: seq<Wallet>, ws1: seq<Wallet>, ws': seq<Wallet>,
                              css: seq<seq<Choices>>, uptos: seq<nat>, i: nat)
    requires FirstPass({}, heightOf, oldest, ts, ws, ws1, |ws|)
             && SecondPass({}, heightOf, oldest, ts, ws1, ws', css, uptos)
    requires css[0] == StoredChoices(ts) && |uptos| == |ws| && forall k | 0 <= k < |uptos| :: uptos[k] == |ts|
    requires i < |ws|
    ensures WalletReconciled(heightOf, oldest, ts, ws, i, ws'[i])
  {
    UndisturbedAdd(i, heightOf, oldest, ts, ws[i], ws1[i]) by { hide AddPass; }
    hide AddPass, WalletPass, StoredChoices, Remaining, WalletReconciled, WalletAdded;
    PassLength({}, i, heightOf, oldest, ts, uptos[i], ws1[i], ws'[i], css[i], css[i + 1]);
    forall j | 0 <= j < |ts| && heightOf(ts[j].hash) >= oldest
      ensures css[i][j] == Remaining(ts[j].voteChoices.Entries(), ws, i)
    {
      ChoicesRemain(heightOf, oldest, ts, ws, ws1, ws', css, uptos, i, j);
    }
    WalletIsReconciled(heightOf, oldest, ts, ws, i, ws1[i], ws'[i], css[i], css[i + 1]);
  }

  lemma BothPassesReconcile(heightOf: string -> int64, oldest: int, ts: seq<Ticket>,
                            ws: seq<Wallet>, ws1: seq<Wallet>, ws': seq<Wallet>,
                            css: seq<seq<Choices>>, uptos: seq<nat>, before: Db, db: Db)
    requires FirstPass({}, heightOf, oldest, ts, ws, ws1, |ws|)
             && SecondPass({}, heightOf, oldest, ts, ws1, ws', css, uptos)
    requires css[0] == StoredChoices(ts) && |uptos| == |ws| && forall k | 0 <= k < |uptos| :: uptos[k] == |ts|
    requires Listing(before, ts) && Tracks(before, db, {}, ts, css[|uptos|])
    ensures Reconciled(heightOf, oldest, ts, before, db, ws, ws')
  {
    hide AddPass, WalletPass, StoredChoices, Remaining, WalletReconciled;
    forall i | 0 <= i < |ws| ensures WalletReconciled(heightOf, oldest, ts, ws, i, ws'[i]) {
      PassesReconcileWallet(heightOf, oldest, ts, ws, ws1, ws', css, uptos, i);
    }
    forall h | h in before
      ensures db[h] == if h in Hashes(ts) && heightOf(h) >= oldest
                       then WithEntries(before[h], Remaining(before[h].voteChoices.Entries(), ws, |ws|)) else before[h]
    {
      if h in Hashes(ts) {
        var j :| 0 <= j < |ts| && ts[j].hash == h;
        assert InStep(db, {}, ts[j], css[|uptos|][j]);
        ChoicesRemain(heightOf, oldest, ts, ws, ws1, ws', css, uptos, |ws|, j);
      }
    }
  }

  // --------------------------------------------------------- main results

  /** The pass converges: every wallet holds every votable ticket; every choice
      still in the database is that of every wallet, for each ticket the wallets
      list; and what is still in the database every wallet has an agenda for, so
      no write of the pass restored what an earlier one removed. */
  lemma PassConverges(heightOf: string -> int64, oldest: int, ts: seq<Ticket>, before: Db, after: Db,
                      ws: seq<Wallet>, ws': seq<Wallet>, i: nat, h: string, a: string)
    requires Reconciled(heightOf, oldest, ts, before, after, ws, ws') && Lists(before, Votable, ts) && WellFiled(before)
    requires i < |ws| && h in after && Votable(after[h])
    ensures h in ws'[i].tickets
    ensures heightOf(h) >= oldest && a in after[h].voteChoices.Entries() ==>
              && a in ws[i].agendas && a in ws'[i].tickets[h]
                 && ws'[i].tickets[h][a] == after[h].voteChoices.Entries()[a]
              && a in before[h].voteChoices.Entries()
                 && after[h].voteChoices.Entries()[a] == before[h].voteChoices.Entries()[a]
    ensures heightOf(h) >= oldest && a in before[h].voteChoices.Entries() && a !in after[h].voteChoices.Entries() ==>
              UnknownToSome(ws, a)
  {
    TicketAfterPass(heightOf, oldest, ts, before, after, ws, ws', i, h);
    hide Reconciled, Lists, WellFiled, Votable;
    RemainingAgrees(Base(ws[i], h), before[h].voteChoices.Entries(), ws, i);
  }

  /** The wallet has every one of the choices. */
  ghost predicate Agrees(w: Choices, c: Choices)
  {
    forall a | a in c :: a in w && w[a] == c[a]
  }

  /** When exactly a wallet ends with every choice the database still has for a
      votable ticket: if wallets list the ticket, or if there was nothing to do. */
  lemma ChoicesAgreeIff(heightOf: string -> int64, oldest: int, ts: seq<Ticket>, before: Db, after: Db,
                        ws: seq<Wallet>, ws': seq<Wallet>, i: nat, h: string)
    requires Reconciled(heightOf, oldest, ts, before, after, ws, ws') && Lists(before, Votable, ts) && WellFiled(before)
    requires i < |ws| && h in after && Votable(after[h])
    ensures h in ws'[i].tickets
    ensures Agrees(ws'[i].tickets[h], after[h].voteChoices.Entries())
       <==> heightOf(h) >= oldest || Agrees(Base(ws[i], h), before[h].voteChoices.Entries())
  {
    hide Reconciled, Lists, WellFiled, Agrees, Remaining;
    TicketAfterPass(heightOf, oldest, ts, before, after, ws, ws', i, h);
    RemainingAgrees(Base(ws[i], h), before[h].voteChoices.Entries(), ws, i);
    assert Base(ws[i], h) + map[] == Base(ws[i], h);
  }

  lemma RemainingAgrees(base: Choices, c: Choices, ws: seq<Wallet>, i: nat)
    requires i < |ws|
    ensures Agrees(base + Remaining(c, ws, i + 1), Remaining(c, ws, |ws|))
  {
    assert forall a | a in Remaining(c, ws, |ws|) :: a in Remaining(c, ws, i + 1) && Remaining(c, ws, i + 1)[a] == c[a];
  }

  lemma TicketAfterPass(heightOf: string -> int64, oldest: int, ts: seq<Ticket>, before: Db, after: Db,
                        ws: seq<Wallet>, ws': seq<Wallet>, i: nat, h: string)
    requires Reconciled(heightOf, oldest, ts, before, after, ws, ws') && Lists(before, Votable, ts) && WellFiled(before)
    requires i < |ws| && h in after && Votable(after[h])
    ensures h in before && h in Hashes(ts) && before[h].hash == h && h in ws'[i].tickets
    ensures ws'[i].tickets[h] == TicketReconciled(heightOf, oldest, before[h], ws, i)
    ensures after[h] == if heightOf(h) >= oldest
            then WithEntries(before[h], Remaining(before[h].voteChoices.Entries(), ws, |ws|))
                        else before[h]
  {
    hide Remaining, WalletReconciled, TicketReconciled;
    assert h in before && Votable(before[h]) && before[h].hash == h;
    assert before[h] in ts;
    var j :| 0 <= j < |ts| && ts[j] == before[h];
    assert h in Hashes(ts);
    assert WalletReconciled(heightOf, oldest, ts, ws, i, ws'[i]);
    WalletHasTicket(heightOf, oldest, ts, ws, i, ws'[i], j);
  }

  lemma WalletHasTicket(heightOf: string -> int64, oldest: int, ts: seq<Ticket>, ws: seq<Wallet>, i: nat, w': Wallet,
                        j: nat)
    requires i < |ws| && j < |ts| && WalletReconciled(heightOf, oldest, ts, ws, i, w')
    ensures ts[j].hash in w'.tickets && w'.tickets[ts[j].hash] == TicketReconciled(heightOf, oldest, ts[j], ws, i)
  {
    assert ts[j].hash in Hashes(ts);
    hide TicketReconciled, RescannedFor, Unlisted;
  }

  /** A ticket that is not listed: its record has no height, as old databases have,
      and another one was recorded above the block it is in. It is added to the
      wallet, but its choice is not set. */
  lemma UnrecordedHeightIsPassedOver(t: Ticket, u: Ticket, agenda: string, choice: string, heightOf: string -> int64,
                                     after: Db, ws': seq<Wallet>)
    requires t.hash != u.hash && Votable(t) && Votable(u) && Normal(t) && Normal(u)
    requires t.purchaseHeight == 0 && t.voteChoices.Entries() == map[agenda := choice]
    requires 0 < heightOf(t.hash) < heightOf(u.hash) == u.purchaseHeight
    requires Reconciled(heightOf, u.purchaseHeight, [t, u], map[t.hash := t, u.hash := u], after,
                        [Wallet({agenda}, map[], {}, [])], ws')
    ensures var db := map[t.hash := t, u.hash := u];
            WellFiled(db) && Lists(db, Votable, [t, u]) && IsEarliest([t, u], u.purchaseHeight)
    ensures after[t.hash].voteChoices.Entries() == map[agenda := choice]
    ensures t.hash in ws'[0].tickets && ws'[0].tickets[t.hash] == map[]
  {
    hide Reconciled, TicketReconciled;
    var db, ws := map[t.hash := t, u.hash := u], [Wallet({agenda}, map[], {}, [])];
    TwoTickets(t, u);
    TicketAfterPass(heightOf, u.purchaseHeight, [t, u], db, after, ws, ws', 0, t.hash) by {
      assert after.Keys == db.Keys && after[t.hash] == t by {
        PassedOver(heightOf, u.purchaseHeight, [t, u], db, after, ws, ws', t.hash);
      }
    }
    hide Lists, WellFiled, IsEarliest, Votable;
    UnlistedGetsNothing(heightOf, u.purchaseHeight, t, ws, 0);
  }

  lemma TwoTickets(t: Ticket, u: Ticket)
    requires t.hash != u.hash && Votable(t) && Votable(u) && Normal(t) && Normal(u)
    requires t.purchaseHeight == 0 && u.purchaseHeight > 0
    ensures var db := map[t.hash := t, u.hash := u];
            WellFiled(db) && Lists(db, Votable, [t, u]) && IsEarliest([t, u], u.purchaseHeight)
  {
    assert [t, u][0] == t && [t, u][1] == u;
    assert t in [t, u] && u in [t, u];
    hide Normal;
  }

  lemma PassedOver(heightOf: string -> int64, oldest: int, ts: seq<Ticket>, before: Db, after: Db, ws: seq<Wallet>,
                   ws': seq<Wallet>, h: string)
    requires Reconciled(heightOf, oldest, ts, before, after, ws, ws') && h in before && heightOf(h) < oldest
    ensures after.Keys == before.Keys && after[h] == before[h]
  {
    hide WalletReconciled;
  }

  lemma UnlistedGetsNothing(heightOf: string -> int64, oldest: int, t: Ticket, ws: seq<Wallet>, i: nat)
    requires i < |ws| && heightOf(t.hash) < oldest && t.hash !in ws[i].tickets
    ensures TicketReconciled(heightOf, oldest, t, ws, i) == map[]
  {
  }

  /** Every votable ticket is listed as long as the recorded purchase heights are
      those of the chain. */
  lemma RecordedHeightsAreListed(heightOf: string -> int64, oldest: int, ts: seq<Ticket>, t: Ticket)
    requires IsEarliest(ts, oldest) && t in ts && t.purchaseHeight != 0 && heightOf(t.hash) == t.purchaseHeight
    ensures heightOf(t.hash) >= oldest
  {
  }

  lemma RemainingAgain(c: Choices, ws: seq<Wallet>, ws': seq<Wallet>, i: nat, base: Choices)
    requires |ws'| == |ws| && i < |ws| && forall k | 0 <= k < |ws| :: ws'[k].agendas == ws[k].agendas
    ensures var all := Remaining(c, ws, |ws|);
            && Remaining(all, ws', |ws'|) == all && Remaining(all, ws', i + 1) == all
            && (base + Remaining(c, ws, i + 1)) + all == base + Remaining(c, ws, i + 1)
  {
    var all := Remaining(c, ws, |ws|);
    assert forall a | a in all :: a in Remaining(c, ws, i + 1) && Remaining(c, ws, i + 1)[a] == all[a];
  }

  /** The tickets of the second list are those of the first with what is left of
      their choices. */
  ghost predicate Relisted(ws: seq<Wallet>, ts: seq<Ticket>, ts2: seq<Ticket>)
  {
    && Hashes(ts2) == Hashes(ts)
    && forall j | 0 <= j < |ts2| :: LeftOfSome(ws, ts, ts2[j])
  }

  ghost predicate LeftOfSome(ws: seq<Wallet>, ts: seq<Ticket>, u: Ticket)
  {
    exists k | 0 <= k < |ts| :: LeftOf(ws, ts[k], u)
  }

  ghost predicate LeftOf(ws: seq<Wallet>, t: Ticket, u: Ticket)
  {
    u == WithEntries(t, Remaining(t.voteChoices.Entries(), ws, |ws|))
  }

  lemma NothingUnlisted(heightOf: string -> int64, oldest: int, ts2: seq<Ticket>, w: Wallet)
    requires Hashes(ts2) <= w.tickets.Keys && forall h | h in Hashes(ts2) :: heightOf(h) >= oldest
    ensures Unlisted(w, ts2, heightOf, oldest) == {}
  {
    forall t | t in ts2 ensures Listed(w, t.hash, heightOf, oldest) {
      assert t.hash in Hashes(ts2);
    }
  }

  lemma TicketIsSettled(heightOf: string -> int64, oldest: int, t: Ticket, u: Ticket, ws: seq<Wallet>,
                        ws1: seq<Wallet>, i: nat)
    requires |ws1| == |ws| && i < |ws| && forall k | 0 <= k < |ws| :: ws1[k].agendas == ws[k].agendas
    requires LeftOf(ws, t, u) && heightOf(t.hash) >= oldest
    requires t.hash in ws1[i].tickets && ws1[i].tickets[t.hash] == TicketReconciled(heightOf, oldest, t, ws, i)
    ensures TicketReconciled(heightOf, oldest, u, ws1, i) == ws1[i].tickets[t.hash]
  {
    hide Remaining;
    RemainingAgain(t.voteChoices.Entries(), ws, ws1, i, Base(ws[i], t.hash));
  }

  lemma SettledTickets(heightOf: string -> int64, oldest: int, ts: seq<Ticket>, ts2: seq<Ticket>,
                       ws: seq<Wallet>, ws1: seq<Wallet>, i: nat, w2: Wallet, h: string)
    requires |ws1| == |ws| && i < |ws| && forall k | 0 <= k < |ws| :: ws1[k].agendas == ws[k].agendas
    requires WalletReconciled(heightOf, oldest, ts, ws, i, ws1[i])
             && WalletReconciled(heightOf, oldest, ts2, ws1, i, w2)
    requires Relisted(ws, ts, ts2) && forall k | k in Hashes(ts2) :: heightOf(k) >= oldest
    ensures h in ws1[i].tickets ==> h in w2.tickets && w2.tickets[h] == ws1[i].tickets[h]
  {
    hide RescannedFor, LeftOf, TicketReconciled;
    if h in Hashes(ts2) {
      var j :| 0 <= j < |ts2| && ts2[j].hash == h;
      assert LeftOfSome(ws, ts, ts2[j]);
      var k :| 0 <= k < |ts| && LeftOf(ws, ts[k], ts2[j]);
      SameHash(ws, ts[k], ts2[j]);
      assert w2.tickets[ts2[j].hash] == TicketReconciled(heightOf, oldest, ts2[j], ws1, i);
      assert ws1[i].tickets[ts[k].hash] == TicketReconciled(heightOf, oldest, ts[k], ws, i);
      TicketIsSettled(heightOf, oldest, ts[k], ts2[j], ws, ws1, i);
    }
  }

  lemma SameHash(ws: seq<Wallet>, t: Ticket, u: Ticket)
    requires LeftOf(ws, t, u)
    ensures u.hash == t.hash
  {
  }

  lemma WalletIsSettled(heightOf: string -> int64, oldest: int, ts: seq<Ticket>, ts2: seq<Ticket>,
                        ws: seq<Wallet>, ws1: seq<Wallet>, i: nat, w2: Wallet)
    requires |ws1| == |ws| && i < |ws| && forall k | 0 <= k < |ws| :: ws1[k].agendas == ws[k].agendas
    requires WalletReconciled(heightOf, oldest, ts, ws, i, ws1[i])
             && WalletReconciled(heightOf, oldest, ts2, ws1, i, w2)
    requires Relisted(ws, ts, ts2) && forall k | k in Hashes(ts2) :: heightOf(k) >= oldest
    ensures w2 == ws1[i]
  {
    hide Unlisted, Hashes, TicketReconciled;
    NothingUnlisted(heightOf, oldest, ts2, ws1[i]);
    forall h | h in ws1[i].tickets ensures h in w2.tickets && w2.tickets[h] == ws1[i].tickets[h] {
      SettledTickets(heightOf, oldest, ts, ts2, ws, ws1, i, w2, h);
    }
    hide Relisted;
    assert w2.tickets == ws1[i].tickets;
  }

  /** A second pass over what a first one left changes nothing: no ticket is added,
      no rescan asked for, no choice pushed and no agenda removed. */
  lemma SecondPassChangesNothing(heightOf: string -> int64, oldest: int, ts: seq<Ticket>, ts2: seq<Ticket>,
                                 before: Db, after: Db, after2: Db, ws: seq<Wallet>, ws1: seq<Wallet>, ws2: seq<Wallet>)
    requires WellFiled(before) && Lists(before, Votable, ts) && Lists(after, Votable, ts2)
    requires Reconciled(heightOf, oldest, ts, before, after, ws, ws1)
    requires Reconciled(heightOf, oldest, ts2, after, after2, ws1, ws2)
    requires forall j | 0 <= j < |ts| :: heightOf(ts[j].hash) >= oldest
    ensures after2 == after && ws2 == ws1
  {
    hide WalletReconciled, Remaining, Relisted, Lists, Votable;
    RelistedTickets(heightOf, oldest, ts, ts2, before, after, ws, ws1);
    SameAgendas(heightOf, oldest, ts, before, after, ws, ws1);
    forall i | 0 <= i < |ws| ensures ws2[i] == ws1[i] {
      assert WalletReconciled(heightOf, oldest, ts, ws, i, ws1[i])
             && WalletReconciled(heightOf, oldest, ts2, ws1, i, ws2[i]);
      WalletIsSettled(heightOf, oldest, ts, ts2, ws, ws1, i, ws2[i]);
    }
    forall h | h in after ensures after2[h] == after[h] {
      RecordIsSettled(heightOf, oldest, ts, ts2, before, after, after2, ws, ws1, ws2, h);
    }
  }

  lemma RecordIsSettled(heightOf: string -> int64, oldest: int, ts: seq<Ticket>, ts2: seq<Ticket>,
                        before: Db, after: Db, after2: Db, ws: seq<Wallet>, ws1: seq<Wallet>, ws2: seq<Wallet>,
                          h: string)
    requires Reconciled(heightOf, oldest, ts, before, after, ws, ws1)
    requires Reconciled(heightOf, oldest, ts2, after, after2, ws1, ws2)
    requires Hashes(ts2) == Hashes(ts) && h in after && forall k | 0 <= k < |ws| :: ws1[k].agendas == ws[k].agendas
    ensures h in after2 && after2[h] == after[h]
  {
    hide WalletReconciled, Remaining, Hashes;
    if h in Hashes(ts2) && ws != [] {
      RemainingAgain(before[h].voteChoices.Entries(), ws, ws1, 0, map[]);
    } else if h in Hashes(ts2) {
      RemainingAtFirst(before[h].voteChoices.Entries(), ws);
      RemainingAtFirst(after[h].voteChoices.Entries(), ws1);
    }
  }

  lemma SameAgendas(heightOf: string -> int64, oldest: int, ts: seq<Ticket>, before: Db, after: Db, ws: seq<Wallet>,
                    ws': seq<Wallet>)
    requires Reconciled(heightOf, oldest, ts, before, after, ws, ws')
    ensures |ws'| == |ws| && forall k | 0 <= k < |ws| :: ws'[k].agendas == ws[k].agendas
  {
    forall k | 0 <= k < |ws| ensures ws'[k].agendas == ws[k].agendas {
      assert WalletReconciled(heightOf, oldest, ts, ws, k, ws'[k]);
    }
  }

  /** The votable tickets afterwards are those before, with what is left of their
      choices. */
  lemma RelistedTickets(heightOf: string -> int64, oldest: int, ts: seq<Ticket>, ts2: seq<Ticket>,
                        before: Db, after: Db, ws: seq<Wallet>, ws': seq<Wallet>)
    requires WellFiled(before) && Lists(before, Votable, ts) && Lists(after, Votable, ts2)
    requires Reconciled(heightOf, oldest, ts, before, after, ws, ws')
    requires forall j | 0 <= j < |ts| :: heightOf(ts[j].hash) >= oldest
    ensures Hashes(ts2) == Hashes(ts) && Relisted(ws, ts, ts2)
    ensures forall h | h in Hashes(ts2) :: heightOf(h) >= oldest
  {
    hide WalletReconciled, Remaining;
    SameVotable(heightOf, oldest, ts, before, after, ws, ws');
    ListedHashes(before, ts);
    ListedHashes(after, ts2);
    hide Votable, Hashes, Matching;
    forall j | 0 <= j < |ts2| ensures LeftOfSome(ws, ts, ts2[j]) {
      var h := ts2[j].hash;
      assert before[h] in ts;
      var k :| 0 <= k < |ts| && ts[k] == before[h];
      HashIn(ts2, j);
      assert LeftOf(ws, ts[k], ts2[j]);
    }
  }

  lemma SameVotable(heightOf: string -> int64, oldest: int, ts: seq<Ticket>, before: Db, after: Db, ws: seq<Wallet>,
                    ws': seq<Wallet>)
    requires WellFiled(before) && Reconciled(heightOf, oldest, ts, before, after, ws, ws')
    ensures Matching(after, Votable) == Matching(before, Votable) && forall h | h in after :: after[h].hash == h
  {
    hide WalletReconciled, Remaining, Hashes;
    assert forall h | h in before :: Votable(after[h]) == Votable(before[h]) && after[h].hash == before[h].hash;
  }

  lemma HashIn(ts: seq<Ticket>, j: nat)
    requires j < |ts|
    ensures ts[j].hash in Hashes(ts)
  {
  }

  lemma ListedHashes(db: Db, ts: seq<Ticket>)
    requires Lists(db, Votable, ts) && forall h | h in db :: db[h].hash == h
    ensures Hashes(ts) == Matching(db, Votable)
  {
    hide Votable;
    forall h | h in Matching(db, Votable) ensures h in Hashes(ts) {
      assert db[h] in ts;
    }
  }

  lemma TracksHas(before: Db, db: Db, broken: set<string>, ts: seq<Ticket>, cs: seq<Choices>, j: nat)
    requires Tracks(before, db, broken, ts, cs) && j < |ts|
    ensures InStep(db, broken, ts[j], cs[j])
  {
  }

  /** Choices a wallet takes are for agendas it knows. */
  lemma StillSound(down: set<Fault>, i: nat, heightOf: string -> int64, oldest: int, ts: seq<Ticket>, upto: nat,
                   w: Wallet, w': Wallet, cs: seq<Choices>, cs': seq<Choices>)
    requires Sound(w) && WalletPass(down, i, heightOf, oldest, ts, upto, w, w', cs, cs')
    ensures Sound(w') && w'.agendas == w.agendas
  {
    forall h | h in w'.tickets ensures w'.tickets[h].Keys <= w'.agendas {
      if h in Hashes(ts) {
        var j :| 0 <= j < |ts| && ts[j].hash == h;
        assert TicketPass(down, i, heightOf, oldest, h, j < upto, w, w', cs[j], cs'[j]);
      }
    }
    hide Left, Failing;
  }

  lemma NothingPushed(w: Wallet, h: string)
    requires h in w.tickets
    ensures Synced(w, h, map[]) == w
  {
    assert w.tickets[h] + map[] == w.tickets[h];
    assert w.tickets[h := w.tickets[h]] == w.tickets;
  }

  lemma InStepHas(db: Db, broken: set<string>, t: Ticket, entries: Choices)
    requires InStep(db, broken, t, entries)
    ensures t.hash in db && db[t.hash := db[t.hash]] == db
  {
  }

  lemma SoundTicket(w: Wallet, h: string)
    requires Sound(w) && h in w.tickets
    ensures w.tickets[h].Keys <= w.agendas
  {
  }

  lemma FailingHas(down: set<Fault>, i: nat, h: string, c: Choices, a: string)
    requires a in c
    ensures a in Failing(down, i, h, c) <==> SetFails(i, h, a) in down
  {
  }

  /** Pushing one more choice; pushing one the wallet has anyway changes nothing. */
  lemma SyncOne(w: Wallet, h: string, pushed: Choices, a: string, choice: string)
    requires h in w.tickets
    ensures a in w.agendas ==>
              SetVoteChoice(Synced(w, h, pushed), a, choice, h) == Some(Synced(w, h, pushed[a := choice]))
    ensures a in w.tickets[h] && w.tickets[h][a] == choice && a !in pushed
            ==> Synced(w, h, pushed[a := choice]) == Synced(w, h, pushed)
  {
    var now := w.tickets[h] + pushed;
    assert now[a := choice] == w.tickets[h] + pushed[a := choice];
    assert w.tickets[h := now][h := now[a := choice]] == w.tickets[h := now[a := choice]];
    if a in w.tickets[h] && w.tickets[h][a] == choice && a !in pushed {
      assert w.tickets[h] + pushed[a := choice] == now;
    }
  }
}
