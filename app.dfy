/** The application state of src/App.tsx: the loaded ledger, the session and
    the loading flag, changed by the first session check, auth notifications,
    the fetch effect and the sign-out and insert handlers. Each backend call
    appears only as its outcome, passed in. */
module AppState {
  import opened Types
  import Ai
  import Chat
  import TransactionList

  /** A signed-in session; the state only tells "some session" from none. */
  datatype Session = Session(userId: string, accessToken: string)

  /** `{ data, error }` of the `select('*').order('created_at', desc)` query. */
  datatype FetchOutcome = Fetched(data: Option<seq<Transaction>>) | FetchFailed(message: string)

  /** `{ data, error }` of the single-row insert: the row as the store returned it. */
  datatype InsertOutcome = Inserted(row: Transaction) | InsertFailed(message: string)

  /** `{ error }` of an auth call. */
  datatype AuthOutcome = AuthOk | AuthFailed(message: string)

  /** What `App` renders. */
  datatype Screen = LoadingScreen | LoginForm | Ledger(transactions: seq<Transaction>)

  class App {
    var transactions: seq<Transaction>
    var session: Option<Session>
    var loading: bool

    /** The three `useState` initial values. */
    constructor ()
      ensures transactions == [] && session == None && loading
    {
      transactions, session, loading := [], None, true;
    }

    /** The early returns and the final render: the loading screen while
        `loading`, then the login form without a session, else the ledger. */
    function View(): (screen: Screen)
      reads this
      ensures screen == LoadingScreen <==> loading
      ensures screen == LoginForm <==> !loading && session.None?
      ensures screen.Ledger? ==> screen.transactions == transactions
    {
      if loading then LoadingScreen
      else if session.None? then LoginForm
      else Ledger(transactions)
    }

    /** The `getSession()` continuation: the session takes the result and the
        loading flag drops, the only place it ever does. */
    method SessionChecked(s: Option<Session>)
      modifies this
      ensures session == s && !loading && transactions == old(transactions)
      ensures View() == if s.None? then LoginForm else Ledger(old(transactions))
    {
      session := s;
      loading := false;
    }

    /** The `onAuthStateChange` callback: the session becomes the notified one,
        and the list stays as it was, even when the session is a different one. */
    method AuthStateChanged(s: Option<Session>)
      modifies this
      ensures session == s
      ensures loading == old(loading) && transactions == old(transactions)
    {
      session := s;
    }

    /** The callback as the ledger needs it: a notification that changes the
        session also drops the list, so rows never outlive the session that
        loaded them; a notification of the same session keeps the list. */
    method SessionChanged(s: Option<Session>)
      modifies this
      ensures session == s
      ensures transactions == if s == old(session) then old(transactions) else []
      ensures loading == old(loading)
    {
      if s != session {
        transactions := [];
      }
      session := s;
    }

    /** The effect on `[session]`: with a session, a successful fetch replaces
        the list with its rows (`[]` when the data is null); a failed fetch, or
        no session, leaves the list alone. */
    method FetchTransactions(outcome: FetchOutcome)
      modifies this
      ensures transactions ==
                if old(session).Some? && outcome.Fetched? then
                  (if outcome.data.Some? then outcome.data.value else [])
                else old(transactions)
      ensures session == old(session) && loading == old(loading)
    {
      if session.Some? {
        match outcome {
          case FetchFailed(_) =>
          case Fetched(data) =>
            transactions := if data.Some? then data.value else [];
        }
      }
    }

    /** `handleSignIn`: whatever the outcome, only a notification follows;
        the session arrives, if at all, through `AuthStateChanged`. */
    method SignIn(outcome: AuthOutcome)
      ensures transactions == old(transactions) && session == old(session) && loading == old(loading)
    {
    }

    /** `handleSignUp`: as `SignIn`; sign-up need not produce a session. */
    method SignUp(outcome: AuthOutcome)
      ensures transactions == old(transactions) && session == old(session) && loading == old(loading)
    {
    }

    /** `handleSignOut`: success clears the list, failure leaves it; the
        session itself is cleared by the notification that follows. */
    method SignOut(outcome: AuthOutcome)
      modifies this
      ensures transactions == if outcome.AuthOk? then [] else old(transactions)
      ensures session == old(session) && loading == old(loading)
    {
      if outcome.AuthOk? {
        transactions := [];
      }
    }

    /** `handleTransactionAdd`: the extracted draft goes only to the store, and
        `outcome` is the store's answer. A successful insert puts the row the
        store returned in front of the list, keeping every earlier row in order,
        and moves the total by that row's amount; a failed insert changes nothing. */
    method AddTransaction(outcome: InsertOutcome)
      modifies this
      ensures transactions == if outcome.Inserted? then [outcome.row] + old(transactions) else old(transactions)
      ensures outcome.Inserted? ==>
                TransactionList.Total(transactions) == TransactionList.Total(old(transactions)) + outcome.row.amount
      ensures session == old(session) && loading == old(loading)
    {
      match outcome {
        case InsertFailed(_) =>
        case Inserted(row) =>
          TransactionList.TotalPrepend(row, transactions);
          transactions := [row] + transactions;
      }
    }
  }

  /** Pressing send: the chat's submit, whose extraction goes to the app's
      insert handler. The chat is mounted only under the ledger view. The
      handler is not awaited, so the message is cleared even when the insert
      fails; the settings and the app's session and loading flag are kept. */
  method SendMessage(chat: Chat.ChatInterface, app: App, reply: Option<Ai.ProviderObject>, insert: InsertOutcome)
    requires app.View().Ledger?
    modifies chat, app
    ensures Chat.SubmitRejected(old(chat.message), old(chat.isProcessing), old(chat.apiKey)) ==>
              unchanged(chat) && unchanged(app)
    ensures !Chat.SubmitRejected(old(chat.message), old(chat.isProcessing), old(chat.apiKey)) ==>
              && chat.message == [] && !chat.isProcessing
              && chat.model == old(chat.model) && chat.apiKey == old(chat.apiKey)
              && app.transactions == (if insert.Inserted? then [insert.row] + old(app.transactions) else old(app.transactions))
              && app.session == old(app.session) && app.loading == old(app.loading)
  {
    var added := chat.HandleSubmit(reply);
    if added.Some? {
      app.AddTransaction(insert);
    }
  }

  /** Signing out and back in. Leaving the ledger unmounts the chat, so the
      ledger shown after sign-in has a new chat in its initial state, key and
      model included. The list is emptied by the sign-out, and afterwards holds
      the new session's fetched rows, or nothing when the fetch failed or
      returned no data: never a row from before. */
  method SignOutAndBackIn(app: App, s: Session, fetch: FetchOutcome) returns (chat: Chat.ChatInterface)
    modifies app
    ensures app.transactions == if fetch.Fetched? && fetch.data.Some? then fetch.data.value else []
    ensures app.session == Some(s) && app.loading == old(app.loading)
    ensures fresh(chat) && chat.message == [] && !chat.isProcessing && chat.model == Ai.OpenAI && chat.apiKey == []
  {
    app.SignOut(AuthOk);
    assert app.transactions == [];
    app.AuthStateChanged(None);
    app.SignIn(AuthOk);
    app.AuthStateChanged(Some(s));
    chat := new Chat.ChatInterface();
    app.FetchTransactions(fetch);
  }

  /** The session ends without `handleSignOut` (it expires, or another tab
      signs out), a second user signs in, and their fetch fails: the ledger
      shows the first user's rows under the second user's session. */
  method StaleRowsAfterSessionSwitch(app: App, s1: Session, s2: Session, failure: string)
    requires app.session == Some(s1) && s1 != s2 && app.transactions != []
    modifies app
    ensures app.session == Some(s2) && app.transactions == old(app.transactions) && app.transactions != []
  {
    app.AuthStateChanged(None);
    app.AuthStateChanged(Some(s2));
    app.FetchTransactions(FetchFailed(failure));
  }

  /** The same switch with the list dropped on every change of session:
      whatever the fetch returns, the ledger shows only rows fetched for the
      second session. */
  method NoStaleRowsAfterSessionSwitch(app: App, s1: Session, s2: Session, fetch: FetchOutcome)
    requires app.session == Some(s1) && s1 != s2
    modifies app
    ensures app.session == Some(s2)
    ensures app.transactions == if fetch.Fetched? && fetch.data.Some? then fetch.data.value else []
  {
    app.SessionChanged(None);
    app.SessionChanged(Some(s2));
    app.FetchTransactions(fetch);
  }
}
