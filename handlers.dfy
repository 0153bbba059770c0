/**
 * The bot handlers that touch the watches table: choosing a day on the
 * calendar (`callback_calendar`), /list (`list_dates_command`) and a delete
 * button (`callback_delete_date`). Telegram itself is left out: a handler
 * returns what it would show instead of sending it.
 */
module Handlers {
  import opened PyStr
  import opened Watches
  import opened Calendar

  /** How `callback_calendar` answers. */
  datatype CalendarReply =
    | Answered                       // IGNORE: the query is acknowledged, nothing else
    | DateAdded(date: string)        // the "added to the watch list" text
    | AlreadyWatched(date: string)   // the "already watched" text
    | Redrawn(ym: YearMonth)         // the keyboard is replaced by the calendar at `ym`
    | Unanswered                     // an action the handler does not know
    | Failed                         // the "calendar error" answer of the `except` branch

  /** `callback_calendar` for the user `chat`. Drawing a calendar raises for a
      month outside 1..12 (`calendar.monthcalendar`), which lands in the
      `except` branch. */
  method OnCalendarCallback(store: Store, chat: int, data: string) returns (reply: CalendarReply)
    requires store.Valid()
    modifies store
    ensures store.Valid()
    ensures match DecodeCalendar(data)
      case SelectDate(date) =>
        && reply == (if Watch(chat, date) in old(store.rows) then AlreadyWatched(date) else DateAdded(date))
        && store.Watches() == old(store.Watches()) + {Watch(chat, date)}
      case Ignore => reply == Answered && store.rows == old(store.rows)
      case ShowMonth(ym) =>
        && reply == (if 1 <= ym.month <= 12 then Redrawn(ym) else Failed)
        && store.rows == old(store.rows)
      case NoAction => reply == Unanswered && store.rows == old(store.rows)
      case CalendarError => reply == Failed && store.rows == old(store.rows)
  {
    match DecodeCalendar(data)
    case SelectDate(date) =>
      var added := store.AddWatch(chat, date);
      reply := if added then DateAdded(date) else AlreadyWatched(date);
    case Ignore =>
      reply := Answered;
    case ShowMonth(ym) =>
      reply := if 1 <= ym.month <= 12 then Redrawn(ym) else Failed;
    case NoAction =>
      reply := Unanswered;
    case CalendarError =>
      reply := Failed;
  }

  /** One `del_<date>` button per date, in the order given. */
  method DeleteButtons(dates: seq<string>) returns (buttons: seq<string>)
    ensures |buttons| == |dates|
    ensures forall i :: 0 <= i < |dates| ==>
      buttons[i] == DeletePayload(dates[i]) && ('_' !in dates[i] ==> DeletedDate(buttons[i]) == dates[i])
  {
    buttons := [];
    var i := 0;
    while i < |dates|
      invariant 0 <= i <= |dates|
      invariant |buttons| == i
      invariant forall k :: 0 <= k < i ==> buttons[k] == DeletePayload(dates[k])
    {
      buttons := buttons + [DeletePayload(dates[i])];
      i := i + 1;
    }
    forall i | 0 <= i < |dates| && '_' !in dates[i]
      ensures DeletedDate(buttons[i]) == dates[i]
    {
      DeletePayloadRoundTrip(dates[i]);
    }
  }

  /** `list_dates_command`: the user's dates in ascending order, one delete
      button each (no buttons means the "nothing watched" reply). */
  method ListDates(store: Store, chat: int) returns (dates: seq<string>, buttons: seq<string>)
    requires store.Valid()
    ensures StrictlySorted(dates)
    ensures forall d :: d in dates <==> Watch(chat, d) in store.rows
    ensures |buttons| == |dates|
    ensures forall i :: 0 <= i < |dates| ==> buttons[i] == DeletePayload(dates[i])
  {
    dates := store.UserWatches(chat);
    buttons := DeleteButtons(dates);
  }

  /** `callback_delete_date`: remove the watch the button names, then list
      what the user still watches. */
  method OnDeleteCallback(store: Store, chat: int, data: string) returns (dates: seq<string>, buttons: seq<string>)
    requires store.Valid()
    requires IsDeletePayload(data)
    modifies store
    ensures store.Valid()
    ensures store.rows == Without(old(store.rows), Watch(chat, DeletedDate(data)))
    ensures StrictlySorted(dates)
    ensures forall d :: d in dates <==> Watch(chat, d) in store.rows
    ensures |buttons| == |dates|
    ensures forall i :: 0 <= i < |dates| ==> buttons[i] == DeletePayload(dates[i])
  {
    var date := DeletedDate(data);
    store.RemoveWatch(chat, date);
    dates, buttons := ListDates(store, chat);
  }

  /** Pressing the delete button of one of the user's dates, as /list made it,
      removes exactly that watch and nothing else. */
  method DeleteListedDate(store: Store, chat: int, k: nat) returns (removed: string)
    requires store.Valid()
    modifies store
    ensures store.Valid()
    ensures k < |old(store.rows)| && old(store.rows)[k].user == chat && '_' !in old(store.rows)[k].date ==>
      store.Watches() == old(store.Watches()) - {old(store.rows)[k]}
  {
    removed := "";
    if k < |store.rows| && store.rows[k].user == chat && '_' !in store.rows[k].date {
      var dates, buttons := ListDates(store, chat);
      var w := store.rows[k];
      assert w.date in dates;
      var i :| 0 <= i < |dates| && dates[i] == w.date;
      DeletePayloadRoundTrip(dates[i]);
      dates, buttons := OnDeleteCallback(store, chat, buttons[i]);
      removed := w.date;
    }
  }
}
