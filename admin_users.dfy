/**
 * The admin's user-management table: the list of user records, the search
 * filter over it, the role counts, deleting a user, and the edit modal whose
 * form is sent as a partial update and merged back into the list.
 */
module AdminUsers {
  import opened Js
  import opened Storefront

  /** A user record as the admin endpoint returns it; any text field may be missing. */
  datatype User = User(
    userId: int,
    name: Option<string>,
    email: Option<string>,
    phone: Option<string>,
    address: Option<string>,
    userType: Option<string>,
    password: Option<string>)

  /** The edit modal's form state (`updatedUser`). */
  datatype EditForm = EditForm(
    name: Option<string>,
    email: Option<string>,
    phone: Option<string>,
    address: Option<string>,
    userType: Option<string>,
    password: string)

  /** The form's state before any record was opened. */
  const BlankForm: EditForm := EditForm(Some(""), Some(""), Some(""), Some(""), Some(""), "")

  /** The body of `PUT admin/users/{id}` (`userToUpdate`); a `None` password is not sent. */
  datatype UserPatch = UserPatch(
    name: Option<string>,
    email: Option<string>,
    userType: Option<string>,
    phone: Option<string>,
    address: Option<string>,
    password: Option<string>)

  // ---------------------------------------------------------------------
  // The edit modal: openEditModal, userToUpdate, and the merge
  // ---------------------------------------------------------------------

  /** The form `openEditModal` fills from a record: its fields, and an empty password. */
  function FormOf(u: User): (f: EditForm)
    ensures f.password == ""
    ensures f.name == u.name && f.email == u.email && f.phone == u.phone
    ensures f.address == u.address && f.userType == u.userType
  {
    EditForm(u.name, u.email, u.phone, u.address, u.userType, "")
  }

  /** `userToUpdate`: the form's fields, with an empty password turned into "not sent". */
  function ToPatch(f: EditForm): (p: UserPatch)
    ensures p.name == f.name && p.email == f.email && p.userType == f.userType
    ensures p.phone == f.phone && p.address == f.address
    ensures p.password == None <==> f.password == ""
    ensures p.password != None ==> p.password.value == f.password
  {
    UserPatch(f.name, f.email, f.userType, f.phone, f.address, if f.password == "" then None else Some(f.password))
  }

  /** `{ ...user, ...userToUpdate }`: the record with every field of the patch laid over it. */
  function Overlay(u: User, p: UserPatch): (r: User)
    ensures r.userId == u.userId
    ensures r.name == p.name && r.email == p.email && r.userType == p.userType
    ensures r.phone == p.phone && r.address == p.address
    ensures r.password == p.password
  {
    u.(name := p.name, email := p.email, userType := p.userType, phone := p.phone,
       address := p.address, password := p.password)
  }

  /**
   * Opening a record and saving the form untouched gives back the record,
   * except that its password becomes "not sent".
   */
  lemma OpenThenSaveKeepsRecord(u: User)
    ensures FormOf(u).password == ""
    ensures Overlay(u, ToPatch(FormOf(u))) == u.(password := None)
  {
  }

  /**
   * Saving a form lays every field typed into it over the record: name,
   * email, role, phone and address as typed, and the password as typed or
   * unset when the box was left empty. Only the id survives from the record.
   */
  lemma FormLandsInRecord(u: User, f: EditForm)
    ensures Overlay(u, ToPatch(f)) ==
      User(u.userId, f.name, f.email, f.phone, f.address, f.userType,
           if f.password == "" then None else Some(f.password))
  {
  }

  /** A typed password is sent as typed and lands in the merged record. */
  lemma TypedPasswordIsSent(u: User, f: EditForm)
    requires f.password != ""
    ensures Overlay(u, ToPatch(f)).password == Some(f.password)
  {
  }

  /** Laying the same patch over a record twice is the same as once. */
  lemma OverlayIdempotent(u: User, p: UserPatch)
    ensures Overlay(Overlay(u, p), p) == Overlay(u, p)
  {
  }

  /**
   * `users.map(user => user.userId === id ? { ...user, ...patch } : user)`:
   * every record with the id is overlaid, every other is kept, in place.
   */
  function ApplyUpdate(users: seq<User>, id: int, patch: UserPatch): (r: seq<User>)
    ensures |r| == |users|
    ensures forall i :: 0 <= i < |users| && users[i].userId == id ==> r[i] == Overlay(users[i], patch)
    ensures forall i :: 0 <= i < |users| && users[i].userId != id ==> r[i] == users[i]
  {
    if users == [] then []
    else [if users[0].userId == id then Overlay(users[0], patch) else users[0]] + ApplyUpdate(users[1..], id, patch)
  }

  /** `userId` identifies at most one record. */
  predicate UniqueUserIds(users: seq<User>) {
    forall i, j :: 0 <= i < j < |users| ==> users[i].userId != users[j].userId
  }

  /** With unique ids, an update rewrites exactly the edited record, in its place. */
  lemma UpdateTouchesOneRecord(users: seq<User>, i: int, patch: UserPatch)
    requires UniqueUserIds(users) && 0 <= i < |users|
    ensures ApplyUpdate(users, users[i].userId, patch) == users[i := Overlay(users[i], patch)]
  {
    var r := ApplyUpdate(users, users[i].userId, patch);
    assert forall j :: 0 <= j < |users| && j != i ==> r[j] == users[j];
  }

  /** An update for an id that no record has leaves the list as it was. */
  lemma UpdateOfAbsentIdIsNoOp(users: seq<User>, id: int, patch: UserPatch)
    requires forall i :: 0 <= i < |users| ==> users[i].userId != id
    ensures ApplyUpdate(users, id, patch) == users
  {
  }

  // ---------------------------------------------------------------------
  // Search filter
  // ---------------------------------------------------------------------

  /** `field?.toLowerCase().includes(query)`: a missing field never matches. */
  predicate FieldMatches(field: Option<string>, query: string) {
    field.Some? && Includes(Lower(field.value), query)
  }

  /** A record is kept when its name, email, phone or address contains the lower-cased search text. */
  predicate MatchesSearch(u: User, searchText: string) {
    var q := Lower(searchText);
    FieldMatches(u.name, q) || FieldMatches(u.email, q) || FieldMatches(u.phone, q) || FieldMatches(u.address, q)
  }

  /** The filter's test for `searchText`. */
  function SearchTest(searchText: string): User -> bool {
    u => MatchesSearch(u, searchText)
  }

  /** `filteredUsers`: the records the table shows for `searchText`. */
  function FilteredUsers(users: seq<User>, searchText: string): (r: seq<User>)
    ensures |r| <= |users|
  {
    Filter(users, SearchTest(searchText))
  }

  /**
   * A record is shown iff it is in the list and the lower-cased search text
   * occurs in its lower-cased name, email, phone or address; the shown
   * records keep the list's order.
   */
  lemma FilteredUsersSpec(users: seq<User>, searchText: string, u: User)
    ensures u in FilteredUsers(users, searchText) <==>
      u in users &&
      ((u.name.Some? && Includes(Lower(u.name.value), Lower(searchText))) ||
       (u.email.Some? && Includes(Lower(u.email.value), Lower(searchText))) ||
       (u.phone.Some? && Includes(Lower(u.phone.value), Lower(searchText))) ||
       (u.address.Some? && Includes(Lower(u.address.value), Lower(searchText))))
    ensures IsSubsequence(FilteredUsers(users, searchText), users)
  {
    FilterMembership(users, SearchTest(searchText), u);
    FilterIsSubsequence(users, SearchTest(searchText));
  }

  /** The record has at least one of the searchable fields. */
  predicate HasSearchableField(u: User) {
    u.name.Some? || u.email.Some? || u.phone.Some? || u.address.Some?
  }

  /**
   * With an empty search box the table shows, in order, every record that
   * has at least one searchable field, and only those.
   */
  lemma EmptySearchShowsRecordsWithFields(users: seq<User>)
    ensures FilteredUsers(users, "") == Filter(users, HasSearchableField)
  {
    forall u | u in users ensures MatchesSearch(u, "") == HasSearchableField(u) {
      if u.name.Some? { IncludesEmpty(Lower(u.name.value)); }
      if u.email.Some? { IncludesEmpty(Lower(u.email.value)); }
      if u.phone.Some? { IncludesEmpty(Lower(u.phone.value)); }
      if u.address.Some? { IncludesEmpty(Lower(u.address.value)); }
    }
    FilterAgrees(users, SearchTest(""), HasSearchableField);
  }

  // ---------------------------------------------------------------------
  // Role counts
  // ---------------------------------------------------------------------

  const SellerRole: string := "Seller"
  const BuyerRole: string := "Buyer"

  /** The test `u => u.userType === role`. */
  function HasRole(role: string): User -> bool {
    (u: User) => u.userType == Some(role)
  }

  /** `users.filter(u => u.userType === role).length`. */
  function CountRole(users: seq<User>, role: string): (n: nat)
    ensures n <= |users|
  {
    |Filter(users, HasRole(role))|
  }

  /** The sellers and the buyers together never outnumber all users. */
  lemma SellersPlusBuyersAtMostTotal(users: seq<User>)
    ensures CountRole(users, SellerRole) + CountRole(users, BuyerRole) <= |users|
  {
    DisjointFiltersBounded(users, HasRole(SellerRole), HasRole(BuyerRole));
  }

  // ---------------------------------------------------------------------
  // Delete
  // ---------------------------------------------------------------------

  /** The test `user => user.userId !== userId`. */
  function OtherThan(userId: int): User -> bool {
    (u: User) => u.userId != userId
  }

  /** `users.filter(user => user.userId !== userId)`. */
  function RemoveUser(users: seq<User>, userId: int): (r: seq<User>)
    ensures |r| <= |users|
    ensures forall u :: u in r ==> u in users && u.userId != userId
  {
    var r := Filter(users, OtherThan(userId));
    assert forall u :: u in r ==> OtherThan(userId)(u);
    r
  }

  /**
   * A delete removes exactly the records with the id and keeps the others
   * in their relative order.
   */
  lemma RemoveUserSpec(users: seq<User>, userId: int, u: User)
    ensures u in RemoveUser(users, userId) <==> u in users && u.userId != userId
    ensures IsSubsequence(RemoveUser(users, userId), users)
  {
    FilterMembership(users, OtherThan(userId), u);
    FilterIsSubsequence(users, OtherThan(userId));
  }

  /** With unique ids, deleting a listed user shortens the list by exactly one. */
  lemma {:induction false} RemoveUniqueShrinksByOne(users: seq<User>, i: int)
    requires UniqueUserIds(users) && 0 <= i < |users|
    ensures |RemoveUser(users, users[i].userId)| == |users| - 1
  {
    var id := users[i].userId;
    if i == 0 {
      FilterAll(users[1..], OtherThan(id));
    } else {
      RemoveUniqueShrinksByOne(users[1..], i - 1);
    }
  }

  const DeletedMessage: string := "Xóa người dùng thành công"
  const LoadFailedError: string := "Lỗi khi tải dữ liệu người dùng."
  const LoadFailedMessage: string := "Không thể tải dữ liệu người dùng"
  const UpdateFailedError: string := "Lỗi khi cập nhật thông tin người dùng."
  const UpdateFailedMessage: string := "Không thể cập nhật thông tin người dùng"
  const UpdatedMessage: string := "Cập nhật thông tin người dùng thành công"

  /** How `DELETE admin/users/{id}` ended. */
  datatype DeleteReply =
    | Deleted(okStatus: SuccessStatus)
    | Refused(status: int)         // an error response with this status
    | Unreachable                  // the request was sent but no response came
    | RequestFailed                // the request could not be made

  const HasOrdersMessage: string := "Không thể xóa người dùng này vì họ có đơn hàng hoặc sản phẩm liên quan"
  const ForbiddenMessage: string := "Bạn không có quyền xóa người dùng này"
  const NotFoundMessage: string := "Không tìm thấy người dùng"
  const SessionExpiredMessage: string := "Phiên đăng nhập đã hết hạn, vui lòng đăng nhập lại"
  const DeleteRetryMessage: string := "Không thể xóa người dùng. Vui lòng thử lại sau"
  const NoConnectionMessage: string := "Không thể kết nối đến máy chủ. Vui lòng kiểm tra kết nối mạng"
  const DeleteFailedMessage: string := "Có lỗi xảy ra khi xóa người dùng"

  /**
   * The error toast for a failed delete: one message per known status (400,
   * 403, 404, 401), one for every other status, one when no response came
   * and one when the request could not be made.
   */
  function DeleteErrorMessage(reply: DeleteReply): (m: string)
    requires !reply.Deleted?
    ensures reply.Refused? && reply.status == 400 ==> m == HasOrdersMessage
    ensures reply.Refused? && reply.status == 403 ==> m == ForbiddenMessage
    ensures reply.Refused? && reply.status == 404 ==> m == NotFoundMessage
    ensures reply.Refused? && reply.status == 401 ==> m == SessionExpiredMessage
    ensures reply.Refused? && reply.status !in {400, 401, 403, 404} ==> m == DeleteRetryMessage
    ensures reply.Unreachable? ==> m == NoConnectionMessage
    ensures reply.RequestFailed? ==> m == DeleteFailedMessage
  {
    match reply
    case Refused(status) =>
      if status == 400 then HasOrdersMessage
      else if status == 403 then ForbiddenMessage
      else if status == 404 then NotFoundMessage
      else if status == 401 then SessionExpiredMessage
      else DeleteRetryMessage
    case Unreachable => NoConnectionMessage
    case RequestFailed => DeleteFailedMessage
  }

  /** Each cause of a failed delete gets a message of its own. */
  lemma DeleteMessagesDistinguishCauses(a: DeleteReply, b: DeleteReply)
    requires !a.Deleted? && !b.Deleted?
    requires DeleteErrorMessage(a) == DeleteErrorMessage(b)
    ensures a.Unreachable? <==> b.Unreachable?
    ensures a.RequestFailed? <==> b.RequestFailed?
    ensures a.Refused? && a.status in {400, 401, 403, 404} ==> b == a
  {
  }

  /** How `PUT admin/users/{id}` ended. */
  datatype UpdateReply = Updated | UpdateFailed

  /** The fields of the edit modal, one per input. */
  datatype FormField = NameField | EmailField | PhoneField | AddressField | PasswordField | UserTypeField

  /** The page's state. */
  class UserTable {
    var users: seq<User>
    var error: Option<string>
    var isModalVisible: bool
    var currentUser: Option<User>
    var updatedUser: EditForm
    var searchText: string

    constructor ()
      ensures users == [] && error == None && !isModalVisible && currentUser == None
      ensures updatedUser == BlankForm && searchText == ""
    {
      users := [];
      error := None;
      isModalVisible := false;
      currentUser := None;
      updatedUser := BlankForm;
      searchText := "";
    }

    /** `fetchUsers`: the list is replaced by the server's, or the load error is recorded. */
    method FetchUsers(reply: Option<seq<User>>) returns (notice: Option<Notice>)
      modifies this
      ensures reply.Some? ==> users == reply.value && error == old(error) && notice == None
      ensures reply.None? ==> users == old(users) && error == Some(LoadFailedError)
                              && notice == Some(Error(LoadFailedMessage))
      ensures isModalVisible == old(isModalVisible) && currentUser == old(currentUser)
      ensures updatedUser == old(updatedUser) && searchText == old(searchText)
    {
      if reply.Some? {
        users := reply.value;
        notice := None;
      } else {
        error := Some(LoadFailedError);
        notice := Some(Error(LoadFailedMessage));
      }
    }

    /** The search box's `onChange`. */
    method SetSearchText(text: string)
      modifies this
      ensures searchText == text
      ensures users == old(users) && error == old(error) && isModalVisible == old(isModalVisible)
      ensures currentUser == old(currentUser) && updatedUser == old(updatedUser)
    {
      searchText := text;
    }

    /**
     * `deleteUser`: after the confirmation, a 200 response removes the
     * records with the id; any other outcome leaves the list as it was.
     */
    method DeleteUser(userId: int, confirmed: bool, reply: DeleteReply) returns (notice: Option<Notice>)
      modifies this
      ensures confirmed && reply == Deleted(200) ==>
        users == RemoveUser(old(users), userId) && notice == Some(Success(DeletedMessage))
      ensures !(confirmed && reply == Deleted(200)) ==> users == old(users)
      ensures confirmed && !reply.Deleted? ==> notice == Some(Error(DeleteErrorMessage(reply)))
      ensures !confirmed || (reply.Deleted? && reply.okStatus != 200) ==> notice == None
      ensures error == old(error) && isModalVisible == old(isModalVisible)
      ensures currentUser == old(currentUser) && updatedUser == old(updatedUser) && searchText == old(searchText)
    {
      notice := None;
      if confirmed {
        match reply
        case Deleted(status) =>
          if status == 200 {
            users := RemoveUser(users, userId);
            notice := Some(Success(DeletedMessage));
          }
        case _ =>
          notice := Some(Error(DeleteErrorMessage(reply)));
      }
    }

    /** `openEditModal`: remembers the record and fills the form from it. */
    method OpenEditModal(user: User)
      modifies this
      ensures currentUser == Some(user) && updatedUser == FormOf(user) && isModalVisible
      ensures users == old(users) && error == old(error) && searchText == old(searchText)
    {
      currentUser := Some(user);
      updatedUser := FormOf(user);
      isModalVisible := true;
    }

    /** An input's `onChange`: one field of the form takes the typed value. */
    method ChangeField(field: FormField, value: string)
      modifies this
      ensures updatedUser == match field
        case NameField => old(updatedUser).(name := Some(value))
        case EmailField => old(updatedUser).(email := Some(value))
        case PhoneField => old(updatedUser).(phone := Some(value))
        case AddressField => old(updatedUser).(address := Some(value))
        case PasswordField => old(updatedUser).(password := value)
        case UserTypeField => old(updatedUser).(userType := Some(value))
      ensures users == old(users) && error == old(error) && isModalVisible == old(isModalVisible)
      ensures currentUser == old(currentUser) && searchText == old(searchText)
    {
      match field
      case NameField => updatedUser := updatedUser.(name := Some(value));
      case EmailField => updatedUser := updatedUser.(email := Some(value));
      case PhoneField => updatedUser := updatedUser.(phone := Some(value));
      case AddressField => updatedUser := updatedUser.(address := Some(value));
      case PasswordField => updatedUser := updatedUser.(password := value);
      case UserTypeField => updatedUser := updatedUser.(userType := Some(value));
    }

    /**
     * `updateUser`: sends the form as a patch for the opened record; on
     * success the patch is merged into that record and the modal closes, on
     * failure (including no opened record) the error is recorded and the
     * list is kept.
     */
    method UpdateUser(reply: UpdateReply) returns (request: Option<(int, UserPatch)>, notice: Notice)
      modifies this
      ensures request.Some? <==> old(currentUser).Some?
      ensures request.Some? ==> request.value == (old(currentUser).value.userId, ToPatch(old(updatedUser)))
      ensures request.Some? && reply == Updated ==>
        users == ApplyUpdate(old(users), old(currentUser).value.userId, ToPatch(old(updatedUser)))
        && !isModalVisible && error == old(error) && notice == Success(UpdatedMessage)
      ensures !(request.Some? && reply == Updated) ==>
        users == old(users) && isModalVisible == old(isModalVisible)
        && error == Some(UpdateFailedError) && notice == Error(UpdateFailedMessage)
      ensures currentUser == old(currentUser) && updatedUser == old(updatedUser) && searchText == old(searchText)
    {
      var userToUpdate := ToPatch(updatedUser);
      if currentUser.Some? {
        request := Some((currentUser.value.userId, userToUpdate));
        if reply == Updated {
          users := ApplyUpdate(users, currentUser.value.userId, userToUpdate);
          isModalVisible := false;
          notice := Success(UpdatedMessage);
          return;
        }
      } else {
        request := None;
      }
      error := Some(UpdateFailedError);
      notice := Error(UpdateFailedMessage);
    }
  }
}
