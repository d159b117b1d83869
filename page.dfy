/** The dashboard page of public/script.js: the display state of its three
    sections, of the QR image and its placeholder, of the check-state button
    and of the status line, changed in place by the socket handlers and by
    the form's submit handler. */
module Page {
  import opened JsValues
  import opened Recipients
  import Session

  /** The `style.display` values the page uses: 'block', 'none', or the
      empty string it has before any script sets it. */
  datatype Display = Block | Hidden | Unset

  /** The three mutually exclusive sections. */
  datatype View = LoginView | InitializingView | DashboardView

  /** What `response.json()` made of a response body: it threw, it gave
      `null` (reading a property of which throws), or it gave any other
      value. */
  datatype ResponseBody = NotJson | JsonNull | JsonValue

  /** What `fetch` did: an HTTP answer with its `ok` flag and its body, or a
      thrown error. */
  datatype FetchOutcome = Answered(ok: bool, body: ResponseBody) | NetworkError

  /** The body the page posts to `/api/send`. */
  datatype Request = Request(numbers: seq<string>, message: string)

  const StatusLoading := "status loading"
  const StatusSuccess := "status success"
  const StatusError := "status error"

  /** The client arms its 15-second fallback only for the number 100. */
  predicate ArmsCheckButton(percent: JsValue)
  {
    percent == Num(100)
  }

  /** The server treats the string "100" as a finished load and arms its own
      30-second poll, but the page does not arm its fallback for it. */
  lemma StringPercentArmsOnlyServerTimer()
    ensures Session.ArmsStuckTimer(Str("100")) && !ArmsCheckButton(Str("100"))
    ensures forall p :: ArmsCheckButton(p) ==> Session.ArmsStuckTimer(p)
  {
  }

  class Dashboard {
    var login: Display
    var initializing: Display
    var dashboard: Display
    var qrImage: Display
    var qrPlaceholder: Display
    var qrSource: string
    var checkStateButton: Display
    var statusDisplay: Display
    var statusClass: string

    /** Exactly the section of `v` is displayed; the other two are hidden. */
    predicate Showing(v: View)
      reads this
    {
      && login == (if v == LoginView then Block else Hidden)
      && initializing == (if v == InitializingView then Block else Hidden)
      && dashboard == (if v == DashboardView then Block else Hidden)
    }

    /** How many of the three sections are displayed. */
    function SectionsShown(): (n: nat)
      reads this
      ensures n <= 3
    {
      (if login == Block then 1 else 0)
      + (if initializing == Block then 1 else 0)
      + (if dashboard == Block then 1 else 0)
    }

    /** The parts of the page that no section switch touches. */
    predicate SameOutsideSections(qi: Display, qp: Display, qs: string, cb: Display, sd: Display, sc: string)
      reads this
    {
      qrImage == qi && qrPlaceholder == qp && qrSource == qs
      && checkStateButton == cb && statusDisplay == sd && statusClass == sc
    }

    /** The page as loaded: the section displays come from the markup. */
    constructor (login: Display, initializing: Display, dashboard: Display)
      ensures this.login == login && this.initializing == initializing && this.dashboard == dashboard
      ensures qrImage == Unset && qrPlaceholder == Unset && qrSource == ""
      ensures checkStateButton == Unset && statusDisplay == Unset && statusClass == ""
    {
      this.login := login;
      this.initializing := initializing;
      this.dashboard := dashboard;
      qrImage := Unset;
      qrPlaceholder := Unset;
      qrSource := "";
      checkStateButton := Unset;
      statusDisplay := Unset;
      statusClass := "";
    }

    method ShowLogin()
      modifies this
      ensures Showing(LoginView) && SectionsShown() == 1
      ensures SameOutsideSections(old(qrImage), old(qrPlaceholder), old(qrSource),
                                  old(checkStateButton), old(statusDisplay), old(statusClass))
    {
      login := Block;
      initializing := Hidden;
      dashboard := Hidden;
    }

    method ShowInitializing()
      modifies this
      ensures Showing(InitializingView) && SectionsShown() == 1
      ensures SameOutsideSections(old(qrImage), old(qrPlaceholder), old(qrSource),
                                  old(checkStateButton), old(statusDisplay), old(statusClass))
    {
      login := Hidden;
      initializing := Block;
      dashboard := Hidden;
    }

    method ShowDashboard()
      modifies this
      ensures Showing(DashboardView) && SectionsShown() == 1
      ensures SameOutsideSections(old(qrImage), old(qrPlaceholder), old(qrSource),
                                  old(checkStateButton), old(statusDisplay), old(statusClass))
    {
      login := Hidden;
      initializing := Hidden;
      dashboard := Block;
    }

    /** `socket.on('qr_code', …)`: the login view with the new image. */
    method OnQrCode(url: string)
      modifies this
      ensures Showing(LoginView)
      ensures qrSource == url && qrImage == Block && qrPlaceholder == Hidden
      ensures checkStateButton == old(checkStateButton) && statusClass == old(statusClass)
      ensures statusDisplay == old(statusDisplay)
    {
      ShowLogin();
      qrSource := url;
      qrImage := Block;
      qrPlaceholder := Hidden;
    }

    /** `socket.on('ready', …)`. */
    method OnReady()
      modifies this
      ensures Showing(DashboardView)
      ensures SameOutsideSections(old(qrImage), old(qrPlaceholder), old(qrSource),
                                  old(checkStateButton), old(statusDisplay), old(statusClass))
    {
      ShowDashboard();
    }

    /** `socket.on('authenticated', …)`. */
    method OnAuthenticated()
      modifies this
      ensures Showing(InitializingView)
      ensures SameOutsideSections(old(qrImage), old(qrPlaceholder), old(qrSource),
                                  old(checkStateButton), old(statusDisplay), old(statusClass))
    {
      ShowInitializing();
    }

    /** `socket.on('disconnected', …)`: the login view, waiting for a new
        image. */
    method OnDisconnected(reason: string)
      modifies this
      ensures Showing(LoginView)
      ensures qrImage == Hidden && qrPlaceholder == Block && qrSource == old(qrSource)
      ensures checkStateButton == old(checkStateButton) && statusClass == old(statusClass)
      ensures statusDisplay == old(statusDisplay)
    {
      ShowLogin();
      qrImage := Hidden;
      qrPlaceholder := Block;
    }

    /** `socket.on('loading', …)`: no display changes; says whether the
        15-second fallback timer is armed. */
    method OnLoading(percent: JsValue) returns (armsFallback: bool)
      ensures armsFallback <==> ArmsCheckButton(percent)
    {
      armsFallback := percent == Num(100);
    }

    /** The fallback timer's body: reveal the check-state button unless the
        dashboard is displayed by then. */
    method OnFallbackTimer()
      modifies this
      ensures checkStateButton == if old(dashboard) == Block then old(checkStateButton) else Block
      ensures login == old(login) && initializing == old(initializing) && dashboard == old(dashboard)
      ensures qrImage == old(qrImage) && qrPlaceholder == old(qrPlaceholder) && qrSource == old(qrSource)
      ensures statusDisplay == old(statusDisplay) && statusClass == old(statusClass)
    {
      if dashboard != Block {
        checkStateButton := Block;
      }
    }

    /** The form's submit handler. The status line shows "loading" first; an
        empty recipient list ends in an error without any request; otherwise
        the request is posted and the status ends in success only for an
        `ok` answer whose body parses to something other than `null`. */
    method Submit(input: string, message: string, outcome: FetchOutcome)
      returns (request: Option<Request>)
      modifies this
      ensures request.Some? <==> ParseNumbers(input) != []
      ensures request.Some? ==> request.value == Request(ParseNumbers(input), message)
      ensures statusClass == StatusSuccess <==> request.Some? && outcome == Answered(true, JsonValue)
      ensures statusClass == StatusSuccess || statusClass == StatusError
      ensures statusDisplay == Block
      ensures login == old(login) && initializing == old(initializing) && dashboard == old(dashboard)
      ensures qrImage == old(qrImage) && qrPlaceholder == old(qrPlaceholder) && qrSource == old(qrSource)
      ensures checkStateButton == old(checkStateButton)
    {
      statusClass := StatusLoading;
      statusDisplay := Block;
      var numbers := ParseNumbers(input);
      if |numbers| == 0 {
        statusClass := StatusError;
        return None;
      }
      request := Some(Request(numbers, message));
      match outcome {
        case NetworkError =>
          statusClass := StatusError;
        case Answered(ok, body) =>
          if body == NotJson {
            // `response.json()` throws and the catch block reports it
            statusClass := StatusError;
          } else if ok {
            statusClass := StatusSuccess;
            if body == JsonNull {
              // the success text reads `result.message` and throws
              statusClass := StatusError;
            }
          } else {
            // reading `result.error` of `null` throws too; either way the
            // status ends as an error
            statusClass := StatusError;
          }
      }
    }
  }

  /** Showing one view means exactly one section is displayed. */
  lemma ShowingIsExclusive(d: Dashboard, v: View)
    requires d.Showing(v)
    ensures d.SectionsShown() == 1
    ensures forall w :: d.Showing(w) ==> w == v
  {
  }
}
