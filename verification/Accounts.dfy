/** The managed-accounts list of the handshake. */
module Accounts {
  import opened Sequences
  import opened Delimited
  import opened Blanks

  /** A piece as a list: its trimmed text, or nothing when that is empty. */
  function Entry(piece: string): seq<string> {
    var account := Trim(piece);
    if account == [] then [] else [account]
  }

  function FlatMap<A, B>(f: A -> seq<B>, xs: seq<A>): seq<B> {
    if xs == [] then [] else f(xs[0]) + FlatMap(f, xs[1..])
  }

  lemma {:induction false} FlatMapConcat<A, B>(f: A -> seq<B>, a: seq<A>, b: seq<A>)
    ensures FlatMap(f, a + b) == FlatMap(f, a) + FlatMap(f, b)
  {
    if a == [] {
      assert a + b == b;
    } else {
      FlatMapConcat(f, a[1..], b);
      assert (a + b)[1..] == a[1..] + b;
      Regroup(f(a[0]), FlatMap(f, a[1..]), FlatMap(f, b));
    }
  }

  /** The trimmed pieces that are not empty, in order. */
  function Entries(pieces: seq<string>): seq<string> {
    FlatMap(Entry, pieces)
  }

  function SplitAccounts(list: string): seq<string> {
    Entries(Split(list, ','))
  }

  /** What a list of account names in good form looks like. */
  predicate IsAccount(account: string) {
    account != [] && ',' !in account && Trimmed(account)
  }

  ghost predicate AreAccounts(accounts: seq<string>) {
    forall i :: 0 <= i < |accounts| ==> IsAccount(accounts[i])
  }

  /** Splitting a joined list is splitting its two halves. */
  lemma SplitAccountsConcat(a: string, b: string)
    ensures SplitAccounts(a + [','] + b) == SplitAccounts(a) + SplitAccounts(b)
  {
    SplitConcat(a, b, ',');
    FlatMapConcat(Entry, Split(a, ','), Split(b, ','));
  }

  lemma {:induction false} EntriesAreAccounts(pieces: seq<string>)
    requires Free(pieces, ',')
    ensures AreAccounts(Entries(pieces))
  {
    if pieces == [] {
    } else {
      EntriesAreAccounts(pieces[1..]);
    }
  }

  lemma EntryOfAccount(account: string)
    requires IsAccount(account)
    ensures Entry(account) == [account]
  {
  }

  lemma {:induction false} EntriesOfAccounts(accounts: seq<string>)
    requires AreAccounts(accounts)
    ensures Entries(accounts) == accounts
  {
    if accounts == [] {
    } else {
      EntriesOfAccounts(accounts[1..]);
      EntryOfAccount(accounts[0]);
      assert accounts == [accounts[0]] + accounts[1..];
    }
  }

  /** No entry is empty, holds a comma, or has outer blanks. */
  lemma SplitAccountsAreAccounts(list: string)
    ensures AreAccounts(SplitAccounts(list))
  {
    SplitIsFree(list, ',');
    EntriesAreAccounts(Split(list, ','));
  }

  lemma NoAccounts()
    ensures SplitAccounts([]) == []
  {
    var none: string := [];
    assert Split(none, ',') == [none];
    assert FlatMap(Entry, [none]) == Entry(none) + FlatMap(Entry, [none][1..]);
  }

  /** A list of strings survives being joined with commas and split again
      exactly when each is an account name in good form. */
  lemma SplitJoinedAccountsIff(accounts: seq<string>)
    ensures SplitAccounts(Join(accounts, ',')) == accounts <==> AreAccounts(accounts)
  {
    SplitAccountsAreAccounts(Join(accounts, ','));
    if AreAccounts(accounts) {
      if accounts == [] {
        NoAccounts();
      } else {
        SplitJoin(accounts, ',');
        EntriesOfAccounts(accounts);
      }
    }
  }
}
