/** The "Download CSV" dialog of app/components/DownloadCsv.tsx: its state
    (`email`, `isBusy`, `open`), the values derived from it (`disabled`, the
    request URL, the saved file's name) and the handlers that change it.
    The request itself and the browser download are outside the model: the
    request's outcome is passed in. */
module DownloadCsv {
  import opened Optional
  import opened Text
  import opened Records
  import opened ExportRoute
  import opened FormUrlencoded

  /** `disabled`: the email does not match `^[^\s@]+@[^\s@]+\.[^\s@]+$`, or a
      download is running. */
  predicate ButtonDisabled(email: string, isBusy: bool) {
    !EmailPattern(email) || isBusy
  }

  /** The request URL: `/api/export?` and the query with `email` and `limit`. */
  function DownloadHref(email: string, defaultLimit: int): string {
    "/api/export?" + Query([("email", email), ("limit", DecimalString(defaultLimit))])
  }

  /** The name the file is saved under: the same scheme as the server's. */
  function DownloadFilename(defaultLimit: int): string {
    ExportFilename(DecimalString(defaultLimit))
  }

  /** An enabled button means the server's own email check passes. */
  lemma EnabledButtonPassesServerCheck(email: string)
    requires !ButtonDisabled(email, false)
    ensures IsValidEmail(Some(email))
  {
    EmailPatternIsShape(email);
  }

  /** The request carries exactly two parameters, `email` and `limit`, in
      that order, and they parse back as the typed email and the decimal text
      of the default limit. */
  lemma HrefCarriesEmailAndLimit(email: string, defaultLimit: int)
    ensures var href := DownloadHref(email, defaultLimit);
            && href[..12] == "/api/export?"
            && ParseQuery(href[12..]) == Some([("email", email), ("limit", DecimalString(defaultLimit))])
  {
    var href := DownloadHref(email, defaultLimit);
    assert href[12..] == Query([("email", email), ("limit", DecimalString(defaultLimit))]);
    QueryRoundTrip([("email", email), ("limit", DecimalString(defaultLimit))]);
  }

  /** A default limit inside the server's range survives the server's clamp,
      so the server names its attachment after the same limit the dialog
      names the saved file after. */
  lemma ServerKeepsDialogLimit(defaultLimit: int)
    requires 1 <= defaultLimit <= 10000
    ensures ExportLimit(Some(Finite(defaultLimit as real))) == defaultLimit as real
    ensures ParseDecimal(DownloadFilename(defaultLimit)[12..|DownloadFilename(defaultLimit)| - 4]) == Some(defaultLimit)
  {
    FilenameCarriesLimit(defaultLimit);
  }

  /** How the download request ended. */
  datatype DownloadOutcome = Saved | NotOk | Threw

  class DownloadDialog {
    var email: string
    var isBusy: bool
    var open: bool
    const defaultLimit: int

    predicate Disabled()
      reads this
    {
      ButtonDisabled(email, isBusy)
    }

    /** The dialog starts closed and idle with an empty email; the default
        limit is 1000 unless the page passes one. */
    constructor(defaultLimitProp: Option<int>)
      ensures email == "" && !isBusy && !open
      ensures defaultLimit == defaultLimitProp.GetOr(1000)
      ensures Disabled()
    {
      email := "";
      isBusy := false;
      open := false;
      defaultLimit := defaultLimitProp.GetOr(1000);
      new;
      assert !EmailPattern("");
    }

    /** The "Download CSV" button. */
    method Open()
      modifies this
      ensures open && email == old(email) && isBusy == old(isBusy)
    {
      open := true;
    }

    /** The backdrop and the close button. */
    method Close()
      modifies this
      ensures !open && email == old(email) && isBusy == old(isBusy)
    {
      open := false;
    }

    /** A key press; the listener exists only while the dialog is open, and
        only Escape closes it. */
    method KeyDown(key: string)
      modifies this
      ensures open == (old(open) && key != "Escape")
      ensures email == old(email) && isBusy == old(isBusy)
    {
      if open && key == "Escape" {
        open := false;
      }
    }

    /** Typing in the email field. */
    method SetEmail(value: string)
      modifies this
      ensures email == value && isBusy == old(isBusy) && open == old(open)
    {
      email := value;
    }

    /** `beginDownload` up to the request: nothing happens while disabled;
        otherwise the dialog turns busy and requests the export URL. */
    method BeginDownload() returns (request: Option<string>)
      modifies this
      ensures request.None? <==> old(Disabled())
      ensures request.Some? ==> request.value == DownloadHref(email, defaultLimit) && IsValidEmail(Some(email))
      ensures isBusy == (old(isBusy) || request.Some?)
      ensures email == old(email) && open == old(open)
    {
      if Disabled() {
        return None;
      }
      EnabledButtonPassesServerCheck(email);
      isBusy := true;
      return Some(DownloadHref(email, defaultLimit));
    }

    /** `beginDownload` after the request: the busy flag is cleared on every
        path; only a saved file closes the dialog, a response that is not ok
        alerts and leaves it open. */
    method FinishDownload(outcome: DownloadOutcome) returns (savedAs: Option<string>, alerted: bool)
      requires isBusy
      modifies this
      ensures !isBusy && email == old(email)
      ensures open == (old(open) && !outcome.Saved?)
      ensures savedAs.Some? <==> outcome.Saved?
      ensures savedAs.Some? ==> savedAs.value == DownloadFilename(defaultLimit)
      ensures alerted <==> outcome.NotOk?
    {
      savedAs := None;
      alerted := false;
      isBusy := false;
      match outcome
      case Saved =>
        savedAs := Some(DownloadFilename(defaultLimit));
        open := false;
      case NotOk =>
        alerted := true;
      case Threw =>
    }
  }

  /** The default limit is written `1000`. */
  lemma DefaultLimitText()
    ensures DecimalString(1000) == "1000"
  {
    assert NatToDecimal(1) == "1";
    assert NatToDecimal(10) == "10";
    assert NatToDecimal(100) == "100";
  }

  /** A full successful download from a fresh dialog: one request for the
      typed email and the default limit, the file saved as
      `liqo_recent_1000.csv`, and the dialog closed and idle again. */
  method DownloadOnce(email: string) returns (request: Option<string>, savedAs: Option<string>, open: bool, busy: bool)
    requires EmailPattern(email)
    ensures request == Some(DownloadHref(email, 1000))
    ensures savedAs == Some(ExportFilename("1000"))
    ensures !open && !busy
  {
    var dialog := new DownloadDialog(None);
    dialog.Open();
    dialog.SetEmail(email);
    request := dialog.BeginDownload();
    var alerted;
    savedAs, alerted := dialog.FinishDownload(Saved);
    DefaultLimitText();
    open, busy := dialog.open, dialog.isBusy;
  }

  /** A second click while the first download runs requests nothing. */
  method BusyBlocksSecondRequest(email: string) returns (first: Option<string>, second: Option<string>)
    requires EmailPattern(email)
    ensures first.Some? && second.None?
  {
    var dialog := new DownloadDialog(None);
    dialog.SetEmail(email);
    first := dialog.BeginDownload();
    second := dialog.BeginDownload();
  }
}
