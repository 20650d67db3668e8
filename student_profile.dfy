/**
 * The profile editor: a form seeded from the dashboard's profile, a list of
 * the fields changed since the form was opened, the "same as permanent"
 * address copy, photo upload and removal, and the submit that sends the
 * synchronised fields back to the dashboard. Each handler runs as one
 * sequential step.
 */
module StudentProfile {
  import opened JsRuntime
  import opened Types
  import App

  // ---------------------------------------------------------------------
  // Lists of field names

  predicate NoDuplicates(s: seq<string>)
  {
    forall i, j :: 0 <= i < j < |s| ==> s[i] != s[j]
  }

  /** prev.filter(f => f !== name). */
  function Without(s: seq<string>, name: string): (r: seq<string>)
    ensures forall f :: f in r <==> f in s && f != name
    ensures NoDuplicates(s) ==> NoDuplicates(r)
    ensures IsSublist(r, s)
  {
    if |s| == 0 then []
    else if s[0] == name then
      var rest := Without(s[1..], name);
      assert NoDuplicates(s) ==> NoDuplicates(s[1..]) by {
        if NoDuplicates(s) {
          forall i, j | 0 <= i < j < |s[1..]| ensures s[1..][i] != s[1..][j] {
            assert s[1..][i] == s[i + 1] && s[1..][j] == s[j + 1];
          }
        }
      }
      rest
    else
      var rest := Without(s[1..], name);
      assert NoDuplicates(s) ==> NoDuplicates(s[1..]) && s[0] !in s[1..] by {
        if NoDuplicates(s) {
          forall i, j | 0 <= i < j < |s[1..]| ensures s[1..][i] != s[1..][j] {
            assert s[1..][i] == s[i + 1] && s[1..][j] == s[j + 1];
          }
          forall k | 0 <= k < |s[1..]| ensures s[1..][k] != s[0] {
            assert s[1..][k] == s[k + 1];
          }
        }
      }
      var r := [s[0]] + rest;
      assert r[1..] == rest;
      r
  }

  /**
   * The names of `rest` appended to `seen` in order, each the first time it
   * appears: what [...new Set(seen + rest)] gives when `seen` has no repeats.
   */
  function UniqueAfter(seen: seq<string>, rest: seq<string>): (r: seq<string>)
    requires NoDuplicates(seen)
    ensures NoDuplicates(r)
    ensures forall f :: f in r <==> f in seen || f in rest
    ensures |seen| <= |r| && r[..|seen|] == seen
    decreases |rest|
  {
    if |rest| == 0 then seen
    else if rest[0] in seen then UniqueAfter(seen, rest[1..])
    else
      var next := seen + [rest[0]];
      assert next[..|seen|] == seen;
      UniqueAfter(next, rest[1..])
  }

  /** [...new Set(s)]: every name of s, each once. */
  function Unique(s: seq<string>): (r: seq<string>)
    ensures NoDuplicates(r)
    ensures forall f :: f in r <==> f in s
  {
    UniqueAfter([], s)
  }

  /** On a list without repeats, deduplicating it followed by more names keeps it as the prefix. */
  lemma {:induction false} UniqueAfterPrefix(seen: seq<string>, p: seq<string>, q: seq<string>)
    requires NoDuplicates(seen + p)
    ensures NoDuplicates(seen)
    ensures UniqueAfter(seen, p + q) == UniqueAfter(seen + p, q)
    decreases |p|
  {
    assert forall i :: 0 <= i < |seen| ==> seen[i] == (seen + p)[i];
    if |p| > 0 {
      assert p[0] == (seen + p)[|seen|];
      assert p[0] !in seen;
      assert (p + q)[0] == p[0] && (p + q)[1..] == p[1..] + q;
      assert seen + [p[0]] + p[1..] == seen + p;
      UniqueAfterPrefix(seen + [p[0]], p[1..], q);
    } else {
      assert p + q == q && seen + p == seen;
    }
  }

  lemma UniqueKeepsPrefix(prev: seq<string>, names: seq<string>)
    requires NoDuplicates(prev)
    ensures |prev| <= |Unique(prev + names)| && Unique(prev + names)[..|prev|] == prev
  {
    assert [] + prev == prev;
    UniqueAfterPrefix([], prev, names);
  }

  // ---------------------------------------------------------------------
  // The form

  /** The form fields copied from the dashboard's profile when the editor opens. */
  function SyncedFromProfile(profile: Record): (form: Record)
    ensures "studentName" in form && form["studentName"] == Get(profile, "name")
    ensures "mobile" in form && form["mobile"] == Get(profile, "phoneNumber")
    ensures "email" in form && form["email"] == Get(profile, "email")
    ensures "studentPhoto" in form && form["studentPhoto"] == Get(profile, "studentPhoto")
    ensures "fatherPhoto" in form && form["fatherPhoto"] == Get(profile, "fatherPhoto")
    ensures "motherPhoto" in form && form["motherPhoto"] == Get(profile, "motherPhoto")
    ensures "adhaarName" in form && form["adhaarName"] == Get(profile, "name")
    ensures "enrollmentNo" in form && form["enrollmentNo"] == Get(profile, "studentId")
    ensures "class" in form && form["class"] == Get(profile, "program")
  {
    map[
      "studentName" := Get(profile, "name"),
      "adhaarName" := Get(profile, "name"),
      "enrollmentNo" := Get(profile, "studentId"),
      "class" := Get(profile, "program"),
      "mobile" := Get(profile, "phoneNumber"),
      "email" := Get(profile, "email"),
      "studentPhoto" := Get(profile, "studentPhoto"),
      "fatherPhoto" := Get(profile, "fatherPhoto"),
      "motherPhoto" := Get(profile, "motherPhoto")
    ]
  }

  const HindiName: string := "एलेक्स जॉनसन"
  const FatherOffice: string := "123 Tech Park, Sector 62, Noida"

  /** The form fields that start with fixed sample values. */
  const SampleFields: Record := map[
    "hindiName" := Text(HindiName), "abcId" := Text("ABC123456"), "scholarNo" := Text("SCH-2024-001"),
    "rollNo" := Text("24CSE001"), "section" := Text("A"), "bloodGroup" := Text("O+"),
    "gender" := Text("Male"), "religion" := Text("Christian"), "dob" := Text("2004-05-15"),
    "adhaarNo" := Text("1234-5678-9012"), "maritalStatus" := Text("Unmarried"), "category" := Text("GEN"),
    "domicile" := Text("Delhi"), "fatherName" := Text("Robert Johnson"), "fatherOccupation" := Text("Engineer"),
    "fatherMobile" := Text("9876543211"), "fatherOffice" := Text(FatherOffice),
    "motherName" := Text("Sarah Johnson"), "motherOccupation" := Text("Teacher"), "motherIncome" := Text("800000"),
    "pAddressLine1" := Text("45/2, Civil Lines"), "pCity" := Text("New Delhi"), "pPinCode" := Text("110054"),
    "pState" := Text("Delhi"),
    "cAddressLine1" := Text("45/2, Civil Lines"), "cCity" := Text("New Delhi"), "cPinCode" := Text("110054"),
    "cState" := Text("Delhi"),
    "bankName" := Text("HDFC Bank"), "accountNo" := Text("501002345678"), "ifsc" := Text("HDFC0001234"),
    "passportNo" := Text("Z1234567"), "visaNo" := Text("")
  ]

  const CorrespondenceFields: seq<string> := ["cAddressLine1", "cCity", "cPinCode", "cState"]

  /** The correspondence address overwritten with the permanent one, every other field kept. */
  function CopyPermanentAddress(form: Record): (r: Record)
    ensures r.Keys == form.Keys + {"cAddressLine1", "cCity", "cPinCode", "cState"}
    ensures r["cAddressLine1"] == Get(form, "pAddressLine1") && r["cCity"] == Get(form, "pCity")
    ensures r["cPinCode"] == Get(form, "pPinCode") && r["cState"] == Get(form, "pState")
    ensures forall k :: k in form && k !in CorrespondenceFields ==> r[k] == form[k]
  {
    form + map[
      "cAddressLine1" := Get(form, "pAddressLine1"),
      "cCity" := Get(form, "pCity"),
      "cPinCode" := Get(form, "pPinCode"),
      "cState" := Get(form, "pState")
    ]
  }

  // ---------------------------------------------------------------------
  // The submit payload

  /** JavaScript truthiness of a field value: a non-empty string. */
  predicate Truthy(v: Value)
  {
    v.Text? && v.s != ""
  }

  /** The form fields that the dashboard's profile receives, with the profile key of each. */
  const ProfileFields: seq<(string, string)> := [
    ("studentName", "name"), ("mobile", "phoneNumber"), ("email", "email"),
    ("studentPhoto", "studentPhoto"), ("fatherPhoto", "fatherPhoto"), ("motherPhoto", "motherPhoto")
  ]

  /** The update `u` carries `field` of the form under `key` exactly when `field` is among the changed ones. */
  predicate Sends(u: Record, changed: seq<string>, form: Record, field: string, key: string)
  {
    (key in u <==> field in changed) && (key in u ==> u[key] == Get(form, field))
  }

  /** `u` with `key` set to the form's `field` when `field` was changed. */
  function AddIfChanged(u: Record, changed: seq<string>, form: Record, field: string, key: string): (r: Record)
    ensures r.Keys == if field in changed then u.Keys + {key} else u.Keys
    ensures forall k :: k in u && k != key ==> r[k] == u[k]
    ensures field in changed ==> r[key] == Get(form, field)
  {
    if field in changed then u[key := Get(form, field)] else u
  }

  /** The synchronised fields among the changed ones, under their profile keys. */
  function SyncedUpdates(changed: seq<string>, form: Record): (u: Record)
    ensures Sends(u, changed, form, "studentName", "name") && Sends(u, changed, form, "mobile", "phoneNumber")
    ensures Sends(u, changed, form, "email", "email") && Sends(u, changed, form, "studentPhoto", "studentPhoto")
    ensures Sends(u, changed, form, "fatherPhoto", "fatherPhoto") && Sends(u, changed, form, "motherPhoto", "motherPhoto")
    ensures u.Keys <= {"name", "phoneNumber", "email", "studentPhoto", "fatherPhoto", "motherPhoto"}
  {
    var u1 := AddIfChanged(map[], changed, form, "studentName", "name");
    var u2 := AddIfChanged(u1, changed, form, "mobile", "phoneNumber");
    var u3 := AddIfChanged(u2, changed, form, "email", "email");
    var u4 := AddIfChanged(u3, changed, form, "studentPhoto", "studentPhoto");
    var u5 := AddIfChanged(u4, changed, form, "fatherPhoto", "fatherPhoto");
    var u6 := AddIfChanged(u5, changed, form, "motherPhoto", "motherPhoto");
    assert Sends(u1, changed, form, "studentName", "name");
    assert Sends(u2, changed, form, "mobile", "phoneNumber");
    assert Sends(u3, changed, form, "email", "email");
    assert Sends(u4, changed, form, "studentPhoto", "studentPhoto");
    assert Sends(u5, changed, form, "fatherPhoto", "fatherPhoto");
    u6
  }

  /**
   * The updates for the dashboard: the synchronised changed fields and, when
   * the name sent is a non-empty string, the avatar: the student photo if
   * there is one, else the current avatar.
   */
  function BuildUpdates(changed: seq<string>, form: Record, currentAvatar: Value): (u: Record)
    ensures Sends(u, changed, form, "studentName", "name") && Sends(u, changed, form, "mobile", "phoneNumber")
    ensures Sends(u, changed, form, "email", "email") && Sends(u, changed, form, "studentPhoto", "studentPhoto")
    ensures Sends(u, changed, form, "fatherPhoto", "fatherPhoto") && Sends(u, changed, form, "motherPhoto", "motherPhoto")
    ensures "avatarUrl" in u <==> "studentName" in changed && Truthy(Get(form, "studentName"))
    ensures "avatarUrl" in u ==>
              u["avatarUrl"] == if Truthy(Get(form, "studentPhoto")) then Get(form, "studentPhoto") else currentAvatar
    ensures u.Keys <= {"name", "phoneNumber", "email", "studentPhoto", "fatherPhoto", "motherPhoto", "avatarUrl"}
  {
    var updates := SyncedUpdates(changed, form);
    if "name" in updates && Truthy(updates["name"]) then
      var studentPhoto := Get(form, "studentPhoto");
      updates["avatarUrl" := if Truthy(studentPhoto) then studentPhoto else currentAvatar]
    else updates
  }

  /**
   * After the dashboard merges the updates, its profile holds the form's value
   * for each synchronised field that was changed and its old value for each
   * one that was not; keys outside the payload keep their values.
   */
  lemma SubmittedProfile(profile: Record, changed: seq<string>, form: Record, field: string, key: string, other: string)
    requires (field, key) in ProfileFields
    ensures var p := App.Merge(profile, BuildUpdates(changed, form, Get(profile, "avatarUrl")));
            (field in changed ==> Get(p, key) == Get(form, field))
            && (field !in changed ==> Get(p, key) == Get(profile, key))
            && (other !in {"name", "phoneNumber", "email", "studentPhoto", "fatherPhoto", "motherPhoto", "avatarUrl"}
                ==> Get(p, other) == Get(profile, other))
  {
    var u := BuildUpdates(changed, form, Get(profile, "avatarUrl"));
    var p := App.Merge(profile, u);
    assert Sends(u, changed, form, field, key);
    if field in changed {
      assert key in u && p[key] == u[key];
    } else {
      assert key in p <==> key in profile;
    }
    if other !in {"name", "phoneNumber", "email", "studentPhoto", "fatherPhoto", "motherPhoto", "avatarUrl"} {
      assert other !in u;
      assert other in p <==> other in profile;
    }
  }

  /** Changes only to fields the dashboard does not hold (bank details, say) send an empty update. */
  lemma UnsyncedChangesSendNothing(changed: seq<string>, form: Record, currentAvatar: Value)
    requires forall f :: f in changed ==> f !in ["studentName", "mobile", "email", "studentPhoto", "fatherPhoto", "motherPhoto"]
    ensures BuildUpdates(changed, form, currentAvatar) == map[]
  {
    var u := BuildUpdates(changed, form, currentAvatar);
    assert "studentName" !in changed && "mobile" !in changed && "email" !in changed;
    assert "studentPhoto" !in changed && "fatherPhoto" !in changed && "motherPhoto" !in changed;
    assert u.Keys == {};
  }

  // ---------------------------------------------------------------------
  // The editor's state

  class ProfileEditor {
    var activeTab: string
    var openSection: string
    var sameAsPermanent: bool
    var updateSuccess: bool
    var changedFields: seq<string>
    var formData: Record
    /** The form as first seeded, against which changes are judged. */
    const originalData: Record

    /** No field name is recorded twice. */
    predicate Valid()
      reads this
    {
      NoDuplicates(changedFields)
    }

    constructor (userProfile: Record)
      ensures Valid()
      ensures activeTab == "personal" && openSection == "basic" && !sameAsPermanent && !updateSuccess
      ensures changedFields == []
      ensures formData == SampleFields + SyncedFromProfile(userProfile) && originalData == formData
    {
      activeTab := "personal";
      openSection := "basic";
      sameAsPermanent := false;
      updateSuccess := false;
      changedFields := [];
      formData := SampleFields + SyncedFromProfile(userProfile);
      originalData := SampleFields + SyncedFromProfile(userProfile);
    }

    /** toggleSection: opening a section closes the others; the open one closes. */
    method ToggleSection(section: string)
      modifies this`openSection
      ensures old(openSection) == section ==> openSection == ""
      ensures old(openSection) != section ==> openSection == section
    {
      openSection := if openSection == section then "" else section;
    }

    /**
     * handleInputChange: only the named field takes the value; the name is
     * then listed exactly when the value differs from the original, and no
     * other name's listing changes.
     */
    method InputChange(name: string, value: string)
      requires Valid()
      modifies this`formData, this`changedFields
      ensures Valid()
      ensures formData == old(formData)[name := Text(value)]
      ensures name in changedFields <==> Text(value) != Get(originalData, name)
      ensures forall f :: f != name ==> (f in changedFields <==> f in old(changedFields))
      ensures name in old(changedFields) && Text(value) != Get(originalData, name) ==>
                changedFields == old(changedFields)
    {
      formData := formData[name := Text(value)];
      if Text(value) != Get(originalData, name) {
        if name !in changedFields {
          changedFields := changedFields + [name];
        }
      } else {
        changedFields := Without(changedFields, name);
      }
    }

    /**
     * handleAddressCheckbox: the flag always follows the box; when checked,
     * the permanent address is copied over the correspondence one and the
     * four correspondence names are recorded once each after those already
     * listed.
     */
    method AddressCheckbox(checked: bool)
      requires Valid()
      modifies this`sameAsPermanent, this`formData, this`changedFields
      ensures Valid()
      ensures sameAsPermanent == checked
      ensures !checked ==> formData == old(formData) && changedFields == old(changedFields)
      ensures checked ==> formData == CopyPermanentAddress(old(formData))
      ensures checked ==>
                (forall f :: f in changedFields <==> f in old(changedFields) || f in CorrespondenceFields)
                && |old(changedFields)| <= |changedFields|
                && changedFields[..|old(changedFields)|] == old(changedFields)
    {
      sameAsPermanent := checked;
      if checked {
        formData := CopyPermanentAddress(formData);
        UniqueKeepsPrefix(changedFields, CorrespondenceFields);
        changedFields := Unique(changedFields + CorrespondenceFields);
      }
    }

    /** handleFileChange once the chosen file (if any) has been read as a data URL. */
    method FileChange(fieldName: string, file: Option<string>)
      requires Valid()
      modifies this`formData, this`changedFields
      ensures Valid()
      ensures file.None? ==> formData == old(formData) && changedFields == old(changedFields)
      ensures file.Some? ==> formData == old(formData)[fieldName := Text(file.value)]
      ensures file.Some? ==>
                fieldName in changedFields
                && (forall f :: f != fieldName ==> (f in changedFields <==> f in old(changedFields)))
      ensures file.Some? && fieldName in old(changedFields) ==> changedFields == old(changedFields)
    {
      if file.Some? {
        formData := formData[fieldName := Text(file.value)];
        if fieldName !in changedFields {
          changedFields := changedFields + [fieldName];
        }
      }
    }

    /** The photo's remove button: the field becomes null; the changed list is left alone. */
    method RemovePhoto(photoField: string)
      modifies this`formData
      ensures formData == old(formData)[photoField := Null]
    {
      formData := formData[photoField := Null];
    }

    /**
     * handleSubmit: with nothing changed the dashboard is not updated;
     * otherwise the updates are merged into the dashboard's profile, success
     * is shown and the changed list is emptied. The form keeps its values.
     */
    method Submit(app: App.PortalApp)
      requires Valid()
      modifies this`updateSuccess, this`changedFields, app`userProfile
      ensures Valid()
      ensures formData == old(formData)
      ensures old(changedFields) == [] ==>
                app.userProfile == old(app.userProfile) && updateSuccess == old(updateSuccess)
                && changedFields == []
      ensures old(changedFields) != [] ==>
                app.userProfile == App.Merge(old(app.userProfile),
                  BuildUpdates(old(changedFields), formData, Get(old(app.userProfile), "avatarUrl")))
                && updateSuccess && changedFields == []
    {
      if |changedFields| == 0 {
        return;
      }
      var updates := BuildUpdates(changedFields, formData, Get(app.userProfile, "avatarUrl"));
      app.HandleProfileUpdate(updates);
      updateSuccess := true;
      changedFields := [];
    }

    /** The timer's callback three seconds after a submit. */
    method HideSuccess()
      modifies this`updateSuccess
      ensures !updateSuccess
    {
      updateSuccess := false;
    }
  }
}
